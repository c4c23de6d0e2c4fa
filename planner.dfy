/**
  The per-entry decision of `organise_files`: the configuration, how one
  directory entry is classified, and which directory it is routed to.
 */
module Planner {
  import opened Wrappers
  import opened Paths

  /** The settings of one run; `logFile` names where the records go. */
  datatype Config = Config(
    copy: bool,
    includeHidden: bool,
    othersDirectory: string,
    logFile: string)

  /** What the organiser does with one entry. */
  datatype Route =
    | SkipDirectory
    | SkipHidden
    | ToExtensionDir(ext: string)
    | ToOthersDir

  /** A hidden name starts with '.'. */
  predicate IsHidden(name: string)
  {
    |name| > 0 && name[0] == '.'
  }

  /**
    The decision taken for an entry called `name`, in the order the source
    takes it: directories first, then hidden names, then the extension.
   */
  function Classify(isDir: bool, name: string, includeHidden: bool): (r: Route)
    ensures r == SkipDirectory <==> isDir
    ensures r.ToExtensionDir? ==> '.' !in r.ext && Extension(name).Some?
  {
    if isDir then SkipDirectory
    else if !includeHidden && IsHidden(name) then SkipHidden
    else match Extension(name)
      case Some(e) => ToExtensionDir(Lower(e))
      case None => ToOthersDir
  }

  /** Where a file with (lower-cased) extension `ext` in `dir` is moved to. */
  function ExtensionDestination(dir: Path, ext: string): (r: Path)
    ensures ext != "" ==> Parent(r) == Some(dir) && r[|r| - 1] != ""
    ensures ext == "" ==> |r| == |dir|
  {
    WithEmptyExtension(Join(dir, ext))
  }

  /** Where a file without an extension in `dir` is moved to. */
  function OthersDestination(dir: Path, others: string): (r: Path)
    ensures others != "" ==> Parent(r) == Some(dir) && r[|r| - 1] == others
    ensures others == "" ==> r == dir
  {
    Join(dir, others)
  }

  // ---------------------------------------------------------------------
  // Properties of the decision
  // ---------------------------------------------------------------------

  /**
    The four outcomes partition the entries: a directory is skipped, a
    hidden file is skipped only when hidden files are excluded, every other
    file is routed by whether it has an extension, the extension
    lower-cased, dot-free and of the original's length.
   */
  lemma ClassifyDecision(isDir: bool, name: string, includeHidden: bool)
    ensures Classify(isDir, name, includeHidden) == SkipDirectory <==> isDir
    ensures Classify(isDir, name, includeHidden) == SkipHidden
      <==> !isDir && !includeHidden && IsHidden(name)
    ensures Classify(isDir, name, includeHidden).ToExtensionDir?
      <==> !isDir && (includeHidden || !IsHidden(name)) && Extension(name).Some?
    ensures Classify(isDir, name, includeHidden) == ToOthersDir
      <==> !isDir && (includeHidden || !IsHidden(name)) && Extension(name).None?
    ensures Classify(isDir, name, includeHidden).ToExtensionDir? ==>
      var e := Classify(isDir, name, includeHidden).ext;
      e == Lower(Extension(name).value) && '.' !in e && |e| == |Extension(name).value|
  {
    if Classify(isDir, name, includeHidden).ToExtensionDir? {
      StemDotExtension(name);
      LowerKeepsDots(Extension(name).value);
    }
  }

  /**
    The hidden test comes before the extension test: ".a.txt" has the
    extension "txt" but is skipped when hidden files are excluded.
   */
  lemma HiddenBeforeExtension()
    ensures Extension(".a.txt") == Some("txt")
    ensures Classify(false, ".a.txt", false) == SkipHidden
    ensures Classify(false, ".a.txt", true) == ToExtensionDir("txt")
  {
    ExtensionOfJoined(".a", "txt");
    assert ".a" + "." + "txt" == ".a.txt";
    assert Lower("txt") == "txt";
  }

  /**
    A dotfile without another '.' is skipped when hidden files are
    excluded and goes to the catch-all directory when they are included.
   */
  lemma DotfileRouting(name: string)
    requires IsHidden(name) && name != ".."
    requires forall k :: 0 < k < |name| ==> name[k] != '.'
    ensures Classify(false, name, false) == SkipHidden
    ensures Classify(false, name, true) == ToOthersDir
  {
    NoExtensionIff(name);
  }

  /** Extensions that differ only in case route to the same directory. */
  lemma CaseInsensitiveRouting(a: string, b: string, includeHidden: bool)
    requires includeHidden || (!IsHidden(a) && !IsHidden(b))
    requires Extension(a).Some? && Extension(b).Some?
    requires Lower(Extension(a).value) == Lower(Extension(b).value)
    ensures Classify(false, a, includeHidden) == Classify(false, b, includeHidden)
  {
  }

  /** "a.TXT" and "b.txt" both go to the directory "txt". */
  lemma CaseInsensitiveExample(dir: Path, includeHidden: bool)
    ensures Classify(false, "a.TXT", includeHidden) == ToExtensionDir("txt")
    ensures Classify(false, "b.txt", includeHidden) == ToExtensionDir("txt")
    ensures ExtensionDestination(dir, "txt") == dir + ["txt"]
  {
    TxtExtensions();
    LowerTxt();
    WithEmptyExtensionPlain(dir, "txt");
  }

  /** The extensions of "a.TXT" and "b.txt". */
  lemma TxtExtensions()
    ensures Extension("a.TXT") == Some("TXT") && Extension("b.txt") == Some("txt")
  {
    ExtensionOfJoined("a", "TXT");
    ExtensionOfJoined("b", "txt");
    assert "a" + "." + "TXT" == "a.TXT";
    assert "b" + "." + "txt" == "b.txt";
  }

  /** "TXT" and "txt" both lower-case to "txt". */
  lemma LowerTxt()
    ensures Lower("TXT") == "txt" && Lower("txt") == "txt"
  {
    var low := Lower("TXT");
    assert low[0] == 't' && low[1] == 'x' && low[2] == 't';
    LowerPlain("txt");
  }

  /**
    A non-empty extension routes one level below the organised directory,
    to the directory named by the lower-cased extension.
   */
  lemma ExtensionDestinationOneLevelDown(dir: Path, name: string, includeHidden: bool)
    requires Classify(false, name, includeHidden).ToExtensionDir?
    requires Classify(false, name, includeHidden).ext != ""
    ensures ExtensionDestination(dir, Classify(false, name, includeHidden).ext)
      == dir + [Lower(Extension(name).value)]
  {
    ClassifyDecision(false, name, includeHidden);
    WithEmptyExtensionPlain(dir, Classify(false, name, includeHidden).ext);
  }

  /**
    The source's "already in the right directory" test compares the entry's
    parent with the extension destination. For an entry of `dir` it holds
    exactly when the extension is empty (a name ending in '.') and the last
    component of `dir` has no extension of its own.
   */
  lemma AlreadyPlacedIff(dir: Path, name: string, ext: string)
    requires '.' !in ext
    ensures Parent(dir + [name]) == Some(ExtensionDestination(dir, ext))
      <==> ext == "" && (dir == [] || Extension(dir[|dir| - 1]).None?)
  {
    assert (dir + [name])[..|dir|] == dir;
    if ext != "" {
      WithEmptyExtensionPlain(dir, ext);
    } else if dir != [] {
      var last := dir[|dir| - 1];
      StemIsNameIff(last);
      if ExtensionDestination(dir, ext) == dir {
        assert WithEmptyExtension(dir)[|dir| - 1] == FileStem(last);
      }
    }
  }

  /**
    When the organised directory's own name has an extension, a file whose
    name ends in '.' is routed to a sibling of that directory named by its
    stem: outside the organised directory.
   */
  lemma EmptyExtensionLeavesDirectory(dir: Path)
    requires dir != [] && Extension(dir[|dir| - 1]).Some?
    ensures ExtensionDestination(dir, "") == dir[..|dir| - 1] + [FileStem(dir[|dir| - 1])]
    ensures ExtensionDestination(dir, "") != dir
    ensures |ExtensionDestination(dir, "")| == |dir|
  {
    StemIsNameIff(dir[|dir| - 1]);
    assert ExtensionDestination(dir, "")[|dir| - 1] != dir[|dir| - 1];
  }

  /** For example, "a." in "/home/foo.bar" goes to "/home/foo". */
  lemma EmptyExtensionExample()
    ensures Extension("a.") == Some("")
    ensures Classify(false, "a.", false) == ToExtensionDir("")
    ensures ExtensionDestination(["home", "foo.bar"], "") == ["home", "foo"]
  {
    assert "a" + "." + "" == "a.";
    ExtensionOfJoined("a", "");
    ExtensionOfJoined("foo", "bar");
    assert "foo" + "." + "bar" == "foo.bar";
  }

  /**
    A file without an extension goes to the catch-all directory named in the
    configuration, directly below the organised directory.
   */
  lemma OthersDestinationShape(dir: Path, others: string)
    ensures others != "" ==> OthersDestination(dir, others) == dir + [others]
    ensures others != "" ==> Parent(OthersDestination(dir, others)) == Some(dir)
    ensures others == "" ==> OthersDestination(dir, others) == dir
  {
    if others != "" {
      assert (dir + [others])[..|dir|] == dir;
    }
  }
}
