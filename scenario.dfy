/**
  One run worked through: a directory holding "report.pdf", "photo.JPG",
  "notes", ".secret" and a subdirectory "archive", organised by moving,
  with hidden files excluded and the catch-all directory "Others".
 */
module Scenario {
  import opened Wrappers
  import opened Paths
  import opened Planner
  import opened Disk
  import opened Organiser

  const Home: Path := ["home"]

  function Before(): (fs: Nodes)
  {
    map[[] := Dir, ["home"] := Dir,
        ["home", "report.pdf"] := File([1]),
        ["home", "photo.JPG"] := File([2]),
        ["home", "notes"] := File([3]),
        ["home", ".secret"] := File([4]),
        ["home", "archive"] := Dir]
  }

  function Listing(): seq<string>
  {
    ["report.pdf", "photo.JPG", "notes", ".secret", "archive"]
  }

  function Settings(): Config
  {
    Config(false, false, "Others", "file_organizer.log")
  }

  /** "report.pdf" has the extension "pdf". */
  lemma ReportName()
    ensures Extension("report.pdf") == Some("pdf") && Lower("pdf") == "pdf"
  {
    assert "report" + "." + "pdf" == "report.pdf";
    ExtensionOfJoined("report", "pdf");
    LowerPlain("pdf");
  }

  /** "photo.JPG" has the extension "JPG", lower-cased "jpg". */
  lemma PhotoName()
    ensures Extension("photo.JPG") == Some("JPG") && Lower("JPG") == "jpg"
  {
    LowerJpg();
    assert "photo" + "." + "JPG" == "photo.JPG";
    ExtensionOfJoined("photo", "JPG");
  }

  /** "JPG" lower-cases to "jpg". */
  lemma LowerJpg()
    ensures Lower("JPG") == "jpg"
  {
    var low := Lower("JPG");
    assert low[0] == 'j' && low[1] == 'p' && low[2] == 'g';
  }

  /** "notes" has no extension. */
  lemma NotesName()
    ensures Extension("notes") == None
  {
    NoExtensionIff("notes");
  }

  /** `name` is a file routed to `dest`, and not already in place there. */
  predicate RoutesTo(fs: Nodes, dir: Path, cfg: Config, name: string, dest: Path)
  {
    match Classify(IsDirIn(fs, dir + [name]), name, cfg.includeHidden)
    case ToExtensionDir(e) => ExtensionDestination(dir, e) == dest && Parent(dir + [name]) != Some(dest)
    case ToOthersDir => OthersDestination(dir, cfg.othersDirectory) == dest
    case _ => false
  }

  /**
    A pass with no failure that creates the missing directory `dest` and
    moves the entry into it.
   */
  lemma MovedStep(st: State, dir: Path, cfg: Config, i: nat, name: string, dest: Path)
    requires !cfg.copy && RoutesTo(st.fs, dir, cfg, name, dest)
    requires CanCreateDir(st.fs, dest)
    requires CanTransfer(st.fs[dest := Dir], dir + [name], dest + [name])
    ensures Step(st, dir, cfg, i, name, {})
      == Stepped(State(Renamed(st.fs[dest := Dir], dir + [name], dest + [name]),
                       st.log + [MovedTo(name, dest)], st.progress + 1), Ok)
  {
  }

  function S0(): State { State(Before(), [], 0) }

  function Fs1(): Nodes
  {
    Renamed(Before()[["home", "pdf"] := Dir], ["home", "report.pdf"], ["home", "pdf", "report.pdf"])
  }

  function S1(): State { State(Fs1(), [MovedTo("report.pdf", ["home", "pdf"])], 1) }

  function Fs2(): Nodes
  {
    Renamed(Fs1()[["home", "jpg"] := Dir], ["home", "photo.JPG"], ["home", "jpg", "photo.JPG"])
  }

  function S2(): State { State(Fs2(), S1().log + [MovedTo("photo.JPG", ["home", "jpg"])], 2) }

  function Fs3(): Nodes
  {
    Renamed(Fs2()[["home", "Others"] := Dir], ["home", "notes"], ["home", "Others", "notes"])
  }

  function S3(): State { State(Fs3(), S2().log + [MovedTo("notes", ["home", "Others"])], 3) }

  function S4(): State { State(Fs3(), S3().log + [SkippedHidden(["home", ".secret"])], 4) }

  function S5(): State { State(Fs3(), S4().log + [SkippedSubdirectory(["home", "archive"])], 5) }

  /** Before anything has moved, "report.pdf" is routed to "pdf". */
  lemma ReportRoutes()
    ensures RoutesTo(Before(), Home, Settings(), "report.pdf", ["home", "pdf"])
  {
    ReportName();
    WithEmptyExtensionPlain(Home, "pdf");
    assert Home + ["report.pdf"] == ["home", "report.pdf"];
    assert Parent(["home", "report.pdf"]) == Some(Home);
    assert !IsDirIn(Before(), ["home", "report.pdf"]);
  }

  /** Before anything has moved, "pdf" can be created and "report.pdf" moved into it. */
  lemma ReportCanMove()
    ensures CanCreateDir(Before(), ["home", "pdf"])
    ensures CanTransfer(Before()[["home", "pdf"] := Dir], ["home", "report.pdf"], ["home", "pdf", "report.pdf"])
  {
    assert ["home", "pdf"][..1] == ["home"];
    assert ["home", "pdf", "report.pdf"][..2] == ["home", "pdf"];
    assert IsDirIn(Before(), ["home"]) && ["home", "pdf"] !in Before();
    assert IsFileIn(Before(), ["home", "report.pdf"]) && ["home", "pdf", "report.pdf"] !in Before();
  }

  /** "report.pdf" is moved into the new directory "pdf". */
  lemma FirstEntry()
    ensures Step(S0(), Home, Settings(), 0, "report.pdf", {}) == Stepped(S1(), Ok)
  {
    ReportRoutes();
    ReportCanMove();
    assert Home + ["report.pdf"] == ["home", "report.pdf"];
    assert ["home", "pdf"] + ["report.pdf"] == ["home", "pdf", "report.pdf"];
    MovedStep(S0(), Home, Settings(), 0, "report.pdf", ["home", "pdf"]);
  }

  /** After the first move, "photo.JPG" is routed to "jpg". */
  lemma PhotoRoutes()
    ensures RoutesTo(Fs1(), Home, Settings(), "photo.JPG", ["home", "jpg"])
  {
    PhotoName();
    WithEmptyExtensionPlain(Home, "jpg");
    assert Home + ["photo.JPG"] == ["home", "photo.JPG"];
    assert Parent(["home", "photo.JPG"]) == Some(Home);
    assert !IsDirIn(Fs1(), ["home", "photo.JPG"]);
  }

  /** After the first move, "jpg" can be created and "photo.JPG" moved into it. */
  lemma PhotoCanMove()
    ensures CanCreateDir(Fs1(), ["home", "jpg"])
    ensures CanTransfer(Fs1()[["home", "jpg"] := Dir], ["home", "photo.JPG"], ["home", "jpg", "photo.JPG"])
  {
    assert ["home", "jpg"][..1] == ["home"];
    assert ["home", "jpg", "photo.JPG"][..2] == ["home", "jpg"];
    assert IsDirIn(Fs1(), ["home"]) && ["home", "jpg"] !in Fs1();
    assert IsFileIn(Fs1(), ["home", "photo.JPG"]) && ["home", "jpg", "photo.JPG"] !in Fs1();
  }

  /** "photo.JPG" is moved into the new directory "jpg", lower-cased. */
  lemma SecondEntry()
    ensures Step(S1(), Home, Settings(), 1, "photo.JPG", {}) == Stepped(S2(), Ok)
  {
    PhotoRoutes();
    PhotoCanMove();
    assert Home + ["photo.JPG"] == ["home", "photo.JPG"];
    assert ["home", "jpg"] + ["photo.JPG"] == ["home", "jpg", "photo.JPG"];
    MovedStep(S1(), Home, Settings(), 1, "photo.JPG", ["home", "jpg"]);
  }

  /** After the first two moves, "notes" is routed to the catch-all directory "Others". */
  lemma NotesRoutes()
    ensures RoutesTo(Fs2(), Home, Settings(), "notes", ["home", "Others"])
  {
    NotesName();
    assert Home + ["notes"] == ["home", "notes"];
    assert !IsDirIn(Fs2(), ["home", "notes"]);
  }

  /** After the first two moves, "Others" can be created and "notes" moved into it. */
  lemma NotesCanMove()
    ensures CanCreateDir(Fs2(), ["home", "Others"])
    ensures CanTransfer(Fs2()[["home", "Others"] := Dir], ["home", "notes"], ["home", "Others", "notes"])
  {
    assert ["home", "Others"][..1] == ["home"];
    assert ["home", "Others", "notes"][..2] == ["home", "Others"];
    assert IsDirIn(Fs2(), ["home"]) && ["home", "Others"] !in Fs2();
    assert IsFileIn(Fs2(), ["home", "notes"]) && ["home", "Others", "notes"] !in Fs2();
  }

  /** "notes" is moved into the new catch-all directory "Others". */
  lemma ThirdEntry()
    ensures Step(S2(), Home, Settings(), 2, "notes", {}) == Stepped(S3(), Ok)
  {
    NotesRoutes();
    NotesCanMove();
    assert Home + ["notes"] == ["home", "notes"];
    assert ["home", "Others"] + ["notes"] == ["home", "Others", "notes"];
    MovedStep(S2(), Home, Settings(), 2, "notes", ["home", "Others"]);
  }

  /** ".secret" is skipped as hidden. */
  lemma FourthEntry()
    ensures Step(S3(), Home, Settings(), 3, ".secret", {}) == Stepped(S4(), Ok)
  {
    assert Home + [".secret"] == ["home", ".secret"];
    assert !IsDirIn(Fs3(), ["home", ".secret"]);
  }

  /** "archive" is skipped as a subdirectory. */
  lemma FifthEntry()
    ensures Step(S4(), Home, Settings(), 4, "archive", {}) == Stepped(S5(), Ok)
  {
    assert Home + ["archive"] == ["home", "archive"];
    assert IsDirIn(Fs3(), ["home", "archive"]);
  }

  /** The three files are in their new directories, the skipped entries where they were. */
  lemma FinalTree()
    ensures Fs3() == map[[] := Dir, ["home"] := Dir,
                         ["home", "pdf"] := Dir, ["home", "pdf", "report.pdf"] := File([1]),
                         ["home", "jpg"] := Dir, ["home", "jpg", "photo.JPG"] := File([2]),
                         ["home", "Others"] := Dir, ["home", "Others", "notes"] := File([3]),
                         ["home", ".secret"] := File([4]),
                         ["home", "archive"] := Dir]
  {
  }

  /** The records of the five entries, in the order of the listing. */
  lemma ScenarioLog()
    ensures S5().log == [MovedTo("report.pdf", ["home", "pdf"]),
                         MovedTo("photo.JPG", ["home", "jpg"]),
                         MovedTo("notes", ["home", "Others"]),
                         SkippedHidden(["home", ".secret"]),
                         SkippedSubdirectory(["home", "archive"])]
  {
  }

  /** The loop over the first entry of the listing. */
  lemma AfterFirst()
    ensures Loop(S0(), Home, Settings(), ["report.pdf"], {}) == Stepped(S1(), Ok)
  {
    FirstEntry();
    assert [] + ["report.pdf"] == ["report.pdf"];
    LoopSnoc(S0(), Home, Settings(), [], "report.pdf", {}, S0(), S1());
  }

  /** The loop over the first two entries of the listing. */
  lemma AfterSecond()
    ensures Loop(S0(), Home, Settings(), ["report.pdf", "photo.JPG"], {}) == Stepped(S2(), Ok)
  {
    AfterFirst();
    SecondEntry();
    assert ["report.pdf"] + ["photo.JPG"] == ["report.pdf", "photo.JPG"];
    LoopSnoc(S0(), Home, Settings(), ["report.pdf"], "photo.JPG", {}, S1(), S2());
  }

  /** The loop over the first three entries of the listing. */
  lemma AfterThird()
    ensures Loop(S0(), Home, Settings(), ["report.pdf", "photo.JPG", "notes"], {}) == Stepped(S3(), Ok)
  {
    AfterSecond();
    ThirdEntry();
    assert ["report.pdf", "photo.JPG"] + ["notes"] == ["report.pdf", "photo.JPG", "notes"];
    LoopSnoc(S0(), Home, Settings(), ["report.pdf", "photo.JPG"], "notes", {}, S2(), S3());
  }

  /** The loop over the first four entries of the listing. */
  lemma AfterFourth()
    ensures Loop(S0(), Home, Settings(), ["report.pdf", "photo.JPG", "notes", ".secret"], {}) == Stepped(S4(), Ok)
  {
    AfterThird();
    FourthEntry();
    assert ["report.pdf", "photo.JPG", "notes"] + [".secret"] == ["report.pdf", "photo.JPG", "notes", ".secret"];
    LoopSnoc(S0(), Home, Settings(), ["report.pdf", "photo.JPG", "notes"], ".secret", {}, S3(), S4());
  }

  /** The loop goes through the five entries without failure. */
  lemma ScenarioLoop()
    ensures Loop(S0(), Home, Settings(), Listing(), {}) == Stepped(S5(), Ok)
  {
    AfterFourth();
    FifthEntry();
    assert ["report.pdf", "photo.JPG", "notes", ".secret"] + ["archive"] == Listing();
    LoopSnoc(S0(), Home, Settings(), ["report.pdf", "photo.JPG", "notes", ".secret"], "archive", {}, S4(), S5());
  }

  /**
    The run succeeds; "pdf/report.pdf", "jpg/photo.JPG" and "Others/notes"
    hold the three files, which are gone from the top level; ".secret" and
    "archive" stay; the log holds a skip record for each of those two,
    three move records and a summary counting the five entries listed.
   */
  lemma ScenarioRun()
    ensures var r := Organise(Before(), [], Home, Settings(), Listing(), {});
      && r.outcome == Ok
      && r.state.progress == 5
      && r.state.log == [MovedTo("report.pdf", ["home", "pdf"]),
                         MovedTo("photo.JPG", ["home", "jpg"]),
                         MovedTo("notes", ["home", "Others"]),
                         SkippedHidden(["home", ".secret"]),
                         SkippedSubdirectory(["home", "archive"]),
                         Summary(5)]
      && r.state.fs == map[[] := Dir, ["home"] := Dir,
                           ["home", "pdf"] := Dir, ["home", "pdf", "report.pdf"] := File([1]),
                           ["home", "jpg"] := Dir, ["home", "jpg", "photo.JPG"] := File([2]),
                           ["home", "Others"] := Dir, ["home", "Others", "notes"] := File([3]),
                           ["home", ".secret"] := File([4]),
                           ["home", "archive"] := Dir]
  {
    ScenarioLoop();
    FinalTree();
    ScenarioLog();
    assert IsDirIn(Before(), Home);
    assert Organise(Before(), [], Home, Settings(), Listing(), {})
      == Stepped(State(Fs3(), S5().log + [Summary(5)], 5), Ok);
  }

  // ---------------------------------------------------------------------
  // Running again on the organised directory
  // ---------------------------------------------------------------------

  /** The tree the run leaves behind. */
  function Organised(): (fs: Nodes)
  {
    map[[] := Dir, ["home"] := Dir,
        ["home", "pdf"] := Dir, ["home", "pdf", "report.pdf"] := File([1]),
        ["home", "jpg"] := Dir, ["home", "jpg", "photo.JPG"] := File([2]),
        ["home", "Others"] := Dir, ["home", "Others", "notes"] := File([3]),
        ["home", ".secret"] := File([4]),
        ["home", "archive"] := Dir]
  }

  /** One listing of the organised "home". */
  function SecondListing(): seq<string>
  {
    ["pdf", "jpg", "Others", ".secret", "archive"]
  }

  /** The records a second run writes for its five entries: four subdirectories and a hidden file. */
  function SecondRecords(): seq<Record>
  {
    [SkippedSubdirectory(["home", "pdf"]),
     SkippedSubdirectory(["home", "jpg"]),
     SkippedSubdirectory(["home", "Others"]),
     SkippedHidden(["home", ".secret"]),
     SkippedSubdirectory(["home", "archive"])]
  }

  /** The state of the second run after its first `k` entries, starting from the log `log`. */
  function Again(log: seq<Record>, k: nat): State
    requires k <= 5
  {
    State(Organised(), log + SecondRecords()[..k], k)
  }

  /** Each pass of the second run only writes its skip record and ticks the bar. */
  lemma AgainStep(log: seq<Record>, k: nat)
    requires k < 5
    ensures Step(Again(log, k), Home, Settings(), k, SecondListing()[k], {}) == Stepped(Again(log, k + 1), Ok)
  {
    var name := SecondListing()[k];
    assert Home + [name] == ["home", name];
    assert SecondRecords()[..k + 1] == SecondRecords()[..k] + [SecondRecords()[k]];
    if k == 3 {
      assert IsHidden(name) && !IsDirIn(Organised(), ["home", name]);
    } else {
      assert IsDirIn(Organised(), ["home", name]);
    }
  }

  /** The loop of the second run over its first `k` entries. */
  lemma {:induction false} AgainLoop(log: seq<Record>, k: nat)
    requires k <= 5
    ensures Loop(State(Organised(), log, 0), Home, Settings(), SecondListing()[..k], {})
      == Stepped(Again(log, k), Ok)
  {
    if k == 0 {
      assert SecondListing()[..0] == [];
      assert log + SecondRecords()[..0] == log;
    } else {
      var front, next := SecondListing()[..k - 1], SecondListing()[k - 1];
      assert front + [next] == SecondListing()[..k];
      AgainLoop(log, k - 1);
      AgainStep(log, k - 1);
      LoopSnoc(State(Organised(), log, 0), Home, Settings(), front, next, {}, Again(log, k - 1), Again(log, k));
    }
  }

  /**
    Running again on the organised tree, after whatever log there is,
    changes no path: the four subdirectories (three of them created by the
    first run) and the hidden file are skipped, each with its record, and
    the summary counts the five entries.
   */
  lemma SecondScenarioRun(log: seq<Record>)
    ensures Organised() == Organise(Before(), [], Home, Settings(), Listing(), {}).state.fs
    ensures Organise(Organised(), log, Home, Settings(), SecondListing(), {})
      == Stepped(State(Organised(), log + SecondRecords() + [Summary(5)], 5), Ok)
  {
    ScenarioRun();
    AgainLoop(log, 5);
    assert SecondListing()[..5] == SecondListing();
    assert SecondRecords()[..5] == SecondRecords();
    assert IsDirIn(Organised(), Home);
  }
}
