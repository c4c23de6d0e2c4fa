/**
  What one pass of the loop does to the filesystem, the log and the
  progress bar, entry kind by entry kind.
 */
module EntryProperties {
  import opened Wrappers
  import opened Paths
  import opened Planner
  import opened Disk
  import opened Organiser

  /**
    A subdirectory is never moved or copied: the filesystem stays as it is,
    one "skipping subdirectory" record naming its path is written and the
    bar advances once (unless writing the record fails).
   */
  lemma SubdirectoryIsSkipped(st: State, dir: Path, cfg: Config, i: nat, name: string,
                              faults: set<IoStep>)
    requires NextEntry(i) !in faults
    requires IsDirIn(st.fs, dir + [name])
    ensures var r := Step(st, dir, cfg, i, name, faults);
      r == if WriteRecord(i) in faults then Stepped(st, Err(WriteRecord(i)))
           else Stepped(State(st.fs, st.log + [SkippedSubdirectory(dir + [name])], st.progress + 1), Ok)
  {
  }

  /**
    With hidden files excluded, a file whose name starts with '.' stays in
    place, whatever its extension, and gets a "skipping hidden file" record.
   */
  lemma HiddenFileIsSkipped(st: State, dir: Path, cfg: Config, i: nat, name: string,
                            faults: set<IoStep>)
    requires NextEntry(i) !in faults
    requires !IsDirIn(st.fs, dir + [name])
    requires !cfg.includeHidden && IsHidden(name)
    ensures var r := Step(st, dir, cfg, i, name, faults);
      r == if WriteRecord(i) in faults then Stepped(st, Err(WriteRecord(i)))
           else Stepped(State(st.fs, st.log + [SkippedHidden(dir + [name])], st.progress + 1), Ok)
  {
  }

  /** The change a successful move or copy of `path` to `target` makes, and nothing else. */
  ghost predicate Transferred(fs: Nodes, fs': Nodes, path: Path, target: Path, copy: bool)
    requires path in fs
  {
    && target in fs' && fs'[target] == fs[path]
    && (copy || path == target ==> path in fs' && fs'[path] == fs[path])
    && (!copy && path != target ==> path !in fs')
  }

  /**
    Nothing changes in `fs'` apart from `dest`, which may be created as a
    directory, and the two paths `path` and `target`.
   */
  ghost predicate OnlyChanges(fs: Nodes, fs': Nodes, dest: Path, path: Path, target: Path)
  {
    && (forall p :: p != dest && p != path && p != target ==>
         (p in fs' <==> p in fs) && (p in fs ==> fs'[p] == fs[p]))
    && (dest !in fs ==> dest in fs' && fs'[dest] == Dir)
    && (dest in fs && dest != target && dest != path ==> dest in fs' && fs'[dest] == fs[dest])
  }

  /**
    A file with an extension, when the step succeeds and the file is not
    already in place, ends up as `<dest>/<name>` with `dest` the directory
    named by the lower-cased extension: `dest` is a directory (created when
    it was missing) before the file is moved or copied, a copy leaves the
    source in place, a move removes it, nothing else changes, and a
    "moved" or "copied" record naming the file and `dest` is written.
   */
  lemma FileWithExtensionIsPlaced(st: State, dir: Path, cfg: Config, i: nat, name: string,
                                  faults: set<IoStep>)
    requires !IsDirIn(st.fs, dir + [name])
    requires cfg.includeHidden || !IsHidden(name)
    requires Extension(name).Some?
    requires Parent(dir + [name]) != Some(ExtensionDestination(dir, Lower(Extension(name).value)))
    requires Step(st, dir, cfg, i, name, faults).outcome.Ok?
    ensures var dest := ExtensionDestination(dir, Lower(Extension(name).value));
      var r := Step(st, dir, cfg, i, name, faults);
      && dir + [name] in st.fs && dir + [name] != dest + [name]
      && dest != dir + [name] && dest != dest + [name]
      && IsDirIn(r.state.fs, dest)
      && Transferred(st.fs, r.state.fs, dir + [name], dest + [name], cfg.copy)
      && OnlyChanges(st.fs, r.state.fs, dest, dir + [name], dest + [name])
      && r.state.log == st.log + [if cfg.copy then CopiedTo(name, dest) else MovedTo(name, dest)]
      && r.state.progress == st.progress + 1
  {
    var dest := ExtensionDestination(dir, Lower(Extension(name).value));
    var path := dir + [name];
    assert path[..|dir|] == dir;
    assert Parent(dest + [name]) == Some(dest) by {
      assert (dest + [name])[..|dest|] == dest;
    }
    var made := EnsureDirectory(st, dest, i, faults);
    PlacedFile(made.state, st.fs, i, path, dest, name, cfg.copy, faults);
  }

  /**
    A file without an extension (with hidden files included, a dotfile
    such as ".env" too) ends up as `<others>/<name>`, with the catch-all
    directory created when it was missing; there is no "already in place"
    test on this branch, so a record is written even when `others` is empty
    and the file stays where it is.
   */
  lemma FileWithoutExtensionIsPlaced(st: State, dir: Path, cfg: Config, i: nat, name: string,
                                     faults: set<IoStep>)
    requires !IsDirIn(st.fs, dir + [name])
    requires cfg.includeHidden || !IsHidden(name)
    requires Extension(name).None?
    requires Step(st, dir, cfg, i, name, faults).outcome.Ok?
    ensures var dest := OthersDestination(dir, cfg.othersDirectory);
      var r := Step(st, dir, cfg, i, name, faults);
      && dir + [name] in st.fs
      && dest != dir + [name] && dest != dest + [name]
      && IsDirIn(r.state.fs, dest)
      && Transferred(st.fs, r.state.fs, dir + [name], dest + [name], cfg.copy)
      && OnlyChanges(st.fs, r.state.fs, dest, dir + [name], dest + [name])
      && r.state.log == st.log + [if cfg.copy then CopiedTo(name, dest) else MovedTo(name, dest)]
      && r.state.progress == st.progress + 1
  {
    var dest := OthersDestination(dir, cfg.othersDirectory);
    var made := EnsureDirectory(st, dest, i, faults);
    PlacedFile(made.state, st.fs, i, dir + [name], dest, name, cfg.copy, faults);
  }

  /** The common tail of the two branches: what `Place` does after `EnsureDirectory`. */
  lemma PlacedFile(st: State, fs0: Nodes, i: nat, path: Path, dest: Path, name: string, copy: bool,
                   faults: set<IoStep>)
    requires dest in st.fs
    requires st.fs == fs0 || (dest !in fs0 && st.fs == fs0[dest := Dir])
    requires Place(st, i, path, dest, name, copy, faults).outcome.Ok?
    ensures var r := Place(st, i, path, dest, name, copy, faults);
      && IsFileIn(fs0, path) && !IsDirIn(fs0, dest + [name])
      && dest != path && dest != dest + [name]
      && IsDirIn(r.state.fs, dest)
      && Transferred(fs0, r.state.fs, path, dest + [name], copy)
      && OnlyChanges(fs0, r.state.fs, dest, path, dest + [name])
  {
    var target := dest + [name];
    assert target[..|dest|] == dest;
    assert IsDirIn(st.fs, dest) && IsFileIn(st.fs, path);
    assert path != dest && target != dest;
    if copy {
      CopiedDuplicates(st.fs, path, target);
    } else {
      RenamedMoves(st.fs, path, target);
    }
  }

  /**
    A file with an extension whose parent already is its destination is
    left alone: no move, no record, only the bar advances.
   */
  lemma FileAlreadyInPlace(st: State, dir: Path, cfg: Config, i: nat, name: string,
                           faults: set<IoStep>)
    requires NextEntry(i) !in faults
    requires dir in st.fs
    requires !IsDirIn(st.fs, dir + [name])
    requires cfg.includeHidden || !IsHidden(name)
    requires Extension(name).Some?
    requires Parent(dir + [name]) == Some(ExtensionDestination(dir, Lower(Extension(name).value)))
    ensures Step(st, dir, cfg, i, name, faults) == Stepped(st.(progress := st.progress + 1), Ok)
  {
    var path := dir + [name];
    var ext := Lower(Extension(name).value);
    var dest := ExtensionDestination(dir, ext);
    assert Parent(path) == Some(dir) by {
      assert path[..|dir|] == dir;
    }
    assert Classify(IsDirIn(st.fs, path), name, cfg.includeHidden) == ToExtensionDir(ext);
    assert EnsureDirectory(st, dest, i, faults) == Stepped(st, Ok);
  }

  /**
    With an empty catch-all name, a file without an extension is "moved"
    onto itself: the filesystem is unchanged, yet a record is written.
   */
  lemma OthersBranchHasNoPlacementCheck(st: State, dir: Path, cfg: Config, i: nat, name: string,
                                        faults: set<IoStep>)
    requires NextEntry(i) !in faults && MoveOrCopy(i) !in faults && WriteRecord(i) !in faults
    requires IsDirIn(st.fs, dir) && IsFileIn(st.fs, dir + [name])
    requires cfg.includeHidden || !IsHidden(name)
    requires Extension(name).None? && cfg.othersDirectory == ""
    ensures var r := Step(st, dir, cfg, i, name, faults);
      && r.outcome == Ok && r.state.fs == st.fs && r.state.progress == st.progress + 1
      && r.state.log == st.log + [if cfg.copy then CopiedTo(name, dir) else MovedTo(name, dir)]
  {
    assert (dir + [name])[..|dir|] == dir;
    RenamedMoves(st.fs, dir + [name], dir + [name]);
  }
}
