/**
  The parts of Rust's `std::path::Path` that the organiser relies on:
  `extension`, `file_stem`, `join`, `parent` and `with_extension("")`,
  over paths written as sequences of their normal components.
 */
module Paths {
  import opened Wrappers

  /** An absolute path as the sequence of its components; `[]` is the root. */
  type Path = seq<string>

  /** The position of the last '.' in `s`, if there is one. */
  function LastDot(s: string): (r: Option<nat>)
    ensures r.Some? ==> r.value < |s| && s[r.value] == '.'
    ensures r.Some? ==> forall k :: r.value < k < |s| ==> s[k] != '.'
    ensures r.None? ==> forall k :: 0 <= k < |s| ==> s[k] != '.'
    decreases |s|
  {
    if s == [] then None
    else if s[|s| - 1] == '.' then Some(|s| - 1)
    else LastDot(s[..|s| - 1])
  }

  /**
    The extension of a file name: the text after its last '.'. There is none
    for a name without a '.', for a name whose only '.' is its first
    character (".env") and for "..". A name ending in '.' has the empty
    extension.
   */
  function Extension(name: string): (r: Option<string>)
    ensures r.Some? ==> '.' !in r.value && |r.value| + 2 <= |name|
  {
    if name == ".." then None
    else match LastDot(name)
      case None => None
      case Some(k) => if k == 0 then None else Some(name[k + 1..])
  }

  /** The file name without its extension (and without the '.' before it). */
  function FileStem(name: string): (r: string)
    ensures r <= name
    ensures name != "" ==> r != ""
  {
    if name == ".." then name
    else match LastDot(name)
      case None => name
      case Some(k) => if k == 0 then name else name[..k]
  }

  /** ASCII lower-casing of one character. */
  function LowerChar(c: char): (r: char)
  {
    if 'A' <= c <= 'Z' then (c as int + 32) as char else c
  }

  /**
    Lower-casing of a string: every upper-case letter becomes its
    lower-case letter, every other character stays, so no upper-case letter
    is left and every '.' stays where it was.
   */
  function Lower(s: string): (r: string)
    ensures |r| == |s|
    ensures forall k :: 0 <= k < |s| ==> !('A' <= r[k] <= 'Z')
    ensures forall k :: 0 <= k < |s| && !('A' <= s[k] <= 'Z') ==> r[k] == s[k]
    ensures forall k :: 0 <= k < |s| && 'A' <= s[k] <= 'Z' ==> r[k] as int == s[k] as int + 32
    ensures forall k :: 0 <= k < |s| ==> (r[k] == '.' <==> s[k] == '.')
  {
    seq(|s|, k requires 0 <= k < |s| => LowerChar(s[k]))
  }

  /** `Path::join` with a single relative component; joining "" adds nothing. */
  function Join(dir: Path, part: string): (r: Path)
  {
    if part == "" then dir else dir + [part]
  }

  /** `Path::parent`: the root has none. */
  function Parent(p: Path): (r: Option<Path>)
  {
    if p == [] then None else Some(p[..|p| - 1])
  }

  /**
    `Path::with_extension("")`: the last component loses its extension; the
    root is left as it is.
   */
  function WithEmptyExtension(p: Path): (r: Path)
    ensures |r| == |p| && Parent(r) == Parent(p)
    ensures p != [] ==> r[|r| - 1] <= p[|p| - 1] && (p[|p| - 1] != "" ==> r[|r| - 1] != "")
  {
    if p == [] then p else p[..|p| - 1] + [FileStem(p[|p| - 1])]
  }

  // ---------------------------------------------------------------------
  // Properties of the name functions
  // ---------------------------------------------------------------------

  /** A name with an extension splits into a non-empty stem, a '.' and a dot-free extension. */
  lemma StemDotExtension(name: string)
    requires Extension(name).Some?
    ensures name == FileStem(name) + "." + Extension(name).value
    ensures FileStem(name) != "" && '.' !in Extension(name).value
  {
    var k := LastDot(name).value;
    assert name == name[..k] + [name[k]] + name[k + 1..];
  }

  /**
    Joining a non-empty stem and a dot-free extension gives back both parts,
    unless the joined name is "..".
   */
  lemma ExtensionOfJoined(stem: string, ext: string)
    requires stem != "" && '.' !in ext
    requires stem + "." + ext != ".."
    ensures Extension(stem + "." + ext) == Some(ext)
    ensures FileStem(stem + "." + ext) == stem
  {
    var name := stem + "." + ext;
    assert name[|stem|] == '.';
    assert forall k :: |stem| < k < |name| ==> name[k] == ext[k - |stem| - 1];
    var d := LastDot(name);
    assert d == Some(|stem|);
    assert name[|stem| + 1..] == ext;
    assert name[..|stem|] == stem;
  }

  /** A name has no extension exactly when it is ".." or has no '.' after its first character. */
  lemma NoExtensionIff(name: string)
    ensures Extension(name).None? <==> (name == ".." || forall k :: 0 < k < |name| ==> name[k] != '.')
  {
    if name != ".." {
      match LastDot(name)
      case None =>
      case Some(k) =>
        if k != 0 { assert name[k] == '.'; }
    }
  }

  /** The stem is the whole name exactly when there is no extension. */
  lemma StemIsNameIff(name: string)
    ensures FileStem(name) == name <==> Extension(name).None?
  {
    if Extension(name).Some? {
      assert |FileStem(name)| < |name|;
    }
  }

  /** Lower-casing keeps and creates no '.'. */
  lemma LowerKeepsDots(s: string)
    ensures '.' in Lower(s) <==> '.' in s
  {
    var r := Lower(s);
    if '.' in r {
      var k :| 0 <= k < |r| && r[k] == '.';
      assert s[k] == '.';
    }
    if '.' in s {
      var k :| 0 <= k < |s| && s[k] == '.';
      assert r[k] == '.';
    }
  }

  /** A string with no upper-case letter is its own lower-casing. */
  lemma LowerPlain(s: string)
    requires forall k :: 0 <= k < |s| ==> !('A' <= s[k] <= 'Z')
    ensures Lower(s) == s
  {
    var r := Lower(s);
    assert forall k :: 0 <= k < |s| ==> r[k] == s[k];
  }

  /** Lower-casing twice is lower-casing once. */
  lemma LowerIdempotent(s: string)
    ensures Lower(Lower(s)) == Lower(s)
  {
  }

  /** `with_extension("")` on a directory joined with a dot-free name changes nothing. */
  lemma WithEmptyExtensionPlain(dir: Path, part: string)
    requires part != "" && '.' !in part
    ensures WithEmptyExtension(Join(dir, part)) == dir + [part]
  {
    NoExtensionIff(part);
    StemIsNameIff(part);
    assert (dir + [part])[..|dir|] == dir;
  }
}
