/**
  The filesystem as the organiser sees it: a map from paths to files and
  directories, with the three operations it performs (`fs::create_dir`,
  `fs::rename`, `fs::copy`) and the two queries (`exists`, `is_dir`).
  Every operation can also fail for a reason outside the map (permissions,
  a full disk, ...); the caller says whether it does through `injected`.
 */
module Disk {
  import opened Paths

  /** What a path names: a regular file with its contents, or a directory. */
  datatype Node = File(data: seq<int>) | Dir

  type Nodes = map<Path, Node>

  predicate IsDirIn(fs: Nodes, p: Path)
  {
    p in fs && fs[p].Dir?
  }

  predicate IsFileIn(fs: Nodes, p: Path)
  {
    p in fs && fs[p].File?
  }

  /** The directory that would hold `p` exists. */
  predicate ParentIsDir(fs: Nodes, p: Path)
  {
    p != [] && IsDirIn(fs, p[..|p| - 1])
  }

  /** `create_dir` succeeds on a new path whose parent is a directory. */
  predicate CanCreateDir(fs: Nodes, p: Path)
  {
    p !in fs && ParentIsDir(fs, p)
  }

  /**
    Moving or copying a regular file succeeds when the target's directory
    exists and the target is not itself a directory; an existing file at
    the target is overwritten.
   */
  predicate CanTransfer(fs: Nodes, from: Path, to: Path)
  {
    IsFileIn(fs, from) && ParentIsDir(fs, to) && !IsDirIn(fs, to)
  }

  /** The filesystem after `rename(from, to)`; renaming onto itself changes nothing. */
  function Renamed(fs: Nodes, from: Path, to: Path): (r: Nodes)
    requires from in fs
    ensures to in r && r[to] == fs[from]
    ensures from != to ==> from !in r
  {
    (fs - {from})[to := fs[from]]
  }

  /** The filesystem after `copy(from, to)`. */
  function Copied(fs: Nodes, from: Path, to: Path): (r: Nodes)
    requires from in fs
    ensures to in r && r[to] == fs[from]
    ensures from in r && r[from] == fs[from]
  {
    fs[to := fs[from]]
  }

  /** Only the two paths named change, as `rename` promises. */
  lemma RenamedMoves(fs: Nodes, from: Path, to: Path)
    requires from in fs
    ensures to in Renamed(fs, from, to) && Renamed(fs, from, to)[to] == fs[from]
    ensures from != to ==> from !in Renamed(fs, from, to)
    ensures from == to ==> Renamed(fs, from, to) == fs
    ensures forall p :: p != from && p != to ==>
      (p in Renamed(fs, from, to) <==> p in fs) &&
      (p in fs ==> Renamed(fs, from, to)[p] == fs[p])
  {
  }

  /** Only the target changes, as `copy` promises; the source keeps its contents. */
  lemma CopiedDuplicates(fs: Nodes, from: Path, to: Path)
    requires from in fs
    ensures to in Copied(fs, from, to) && Copied(fs, from, to)[to] == fs[from]
    ensures from in Copied(fs, from, to) && Copied(fs, from, to)[from] == fs[from]
    ensures forall p :: p != to ==>
      (p in Copied(fs, from, to) <==> p in fs) &&
      (p in fs ==> Copied(fs, from, to)[p] == fs[p])
  {
  }

  /** The filesystem the organiser works on. */
  class FileSystem {
    var nodes: Nodes

    constructor (nodes: Nodes)
      ensures this.nodes == nodes
    {
      this.nodes := nodes;
    }

    /** `Path::exists`. */
    predicate Exists(p: Path)
      reads this
      ensures Exists(p) <==> IsDirIn(nodes, p) || IsFileIn(nodes, p)
    {
      p in nodes
    }

    /** `Path::is_dir`: false for a missing path. */
    predicate IsDirectory(p: Path)
      reads this
      ensures IsDirectory(p) ==> Exists(p)
      ensures IsDirectory(p) <==> Exists(p) && !IsFileIn(nodes, p)
    {
      IsDirIn(nodes, p)
    }

    /** `fs::create_dir`: one level, fails if the parent is missing. */
    method CreateDir(p: Path, injected: bool) returns (ok: bool)
      modifies this
      ensures ok == (!injected && CanCreateDir(old(nodes), p))
      ensures nodes == if ok then old(nodes)[p := Dir] else old(nodes)
    {
      ok := !injected && CanCreateDir(nodes, p);
      if ok {
        nodes := nodes[p := Dir];
      }
    }

    /** `fs::rename` of a regular file. */
    method Rename(from: Path, to: Path, injected: bool) returns (ok: bool)
      modifies this
      ensures ok == (!injected && CanTransfer(old(nodes), from, to))
      ensures nodes == if ok then Renamed(old(nodes), from, to) else old(nodes)
    {
      ok := !injected && CanTransfer(nodes, from, to);
      if ok {
        nodes := Renamed(nodes, from, to);
      }
    }

    /** `fs::copy` of a regular file. */
    method Copy(from: Path, to: Path, injected: bool) returns (ok: bool)
      modifies this
      ensures ok == (!injected && CanTransfer(old(nodes), from, to))
      ensures nodes == if ok then Copied(old(nodes), from, to) else old(nodes)
    {
      ok := !injected && CanTransfer(nodes, from, to);
      if ok {
        nodes := Copied(nodes, from, to);
      }
    }
  }
}
