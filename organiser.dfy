/**
  `organise_files`: one pass over a directory listing that moves or copies
  every file into a subdirectory named after its extension, writes one log
  record per entry it acts on, advances a progress bar once per entry and
  ends with a summary record.

  The functions `Step`, `Loop` and `Organise` say what a run does; the
  method `OrganiseFiles` is the run itself, written as the source writes it,
  and is proved to do exactly what `Organise` says.
 */
module Organiser {
  import opened Wrappers
  import opened Paths
  import opened Planner
  import opened Disk

  /** One line of the log file, without its wording and timings. */
  datatype Record =
    | SkippedSubdirectory(path: Path)
    | SkippedHidden(path: Path)
    | MovedTo(name: string, destination: Path)
    | CopiedTo(name: string, destination: Path)
    | Summary(processed: nat)

  /**
    The I/O calls that can fail; those about one entry carry its position in
    the listing.
   */
  datatype IoStep =
    | OpenLog
    | ReadDir
    | NextEntry(index: nat)
    | CreateDestination(index: nat)
    | MoveOrCopy(index: nat)
    | WriteRecord(index: nat)
    | WriteSummary

  /** A call made for one of the first `n` entries of the listing. */
  predicate AtEntry(step: IoStep, n: nat)
  {
    (step.NextEntry? || step.CreateDestination? || step.MoveOrCopy? || step.WriteRecord?)
    && step.index < n
  }

  /** The `io::Result<()>` of a run: success, or the call that failed. */
  datatype Outcome = Ok | Err(at: IoStep)

  /** What a run has changed so far: the filesystem, the log and the bar's position. */
  datatype State = State(fs: Nodes, log: seq<Record>, progress: nat)

  /** The state after some steps, and whether they stopped at a failure. */
  datatype Stepped = Stepped(state: State, outcome: Outcome)

  /** No record in `recs` is a summary. */
  predicate NoSummary(recs: seq<Record>)
  {
    forall k :: 0 <= k < |recs| ==> !recs[k].Summary?
  }

  /**
    What `fs::read_dir` promises: `names` lists each child of `dir` once,
    in some order.
   */
  ghost predicate IsListing(fs: Nodes, dir: Path, names: seq<string>)
  {
    && (forall i, j :: 0 <= i < j < |names| ==> names[i] != names[j])
    && (forall i :: 0 <= i < |names| ==> dir + [names[i]] in fs)
    && (forall p :: p in fs && Parent(p) == Some(dir) ==> p[|p| - 1] in names)
  }

  // ---------------------------------------------------------------------
  // What a run does
  // ---------------------------------------------------------------------

  /** Writing the record of entry `i` and advancing the bar, or failing at the write. */
  function Logged(st: State, i: nat, rec: Record, faults: set<IoStep>): (r: Stepped)
    ensures r.state.fs == st.fs
    ensures r.outcome.Ok? ==> r.state.log == st.log + [rec] && r.state.progress == st.progress + 1
    ensures r.outcome.Err? ==> r.state == st && r.outcome == Err(WriteRecord(i))
  {
    if WriteRecord(i) in faults then Stepped(st, Err(WriteRecord(i)))
    else Stepped(st.(log := st.log + [rec], progress := st.progress + 1), Ok)
  }

  /** Creating the destination directory of entry `i` when it does not exist. */
  function EnsureDirectory(st: State, dest: Path, i: nat, faults: set<IoStep>): (r: Stepped)
    ensures r.state.log == st.log && r.state.progress == st.progress
    ensures r.outcome.Ok? ==> dest in r.state.fs
    ensures r.outcome.Err? ==> r.state == st && r.outcome == Err(CreateDestination(i))
  {
    if dest in st.fs then Stepped(st, Ok)
    else if CreateDestination(i) !in faults && CanCreateDir(st.fs, dest) then
      Stepped(st.(fs := st.fs[dest := Dir]), Ok)
    else Stepped(st, Err(CreateDestination(i)))
  }

  /** Moving or copying entry `i` into `dest` under its own name, then logging it. */
  function Place(st: State, i: nat, path: Path, dest: Path, name: string, copy: bool,
                 faults: set<IoStep>): (r: Stepped)
    ensures r.outcome.Ok? ==> r.state.progress == st.progress + 1
    ensures r.outcome.Ok? ==> r.state.log == st.log + [if copy then CopiedTo(name, dest) else MovedTo(name, dest)]
    ensures r.outcome.Err? ==> r.state.progress == st.progress && r.state.log == st.log
    ensures r.outcome.Err? ==> r.outcome == Err(MoveOrCopy(i)) || r.outcome == Err(WriteRecord(i))
  {
    var target := dest + [name];
    if MoveOrCopy(i) in faults || !CanTransfer(st.fs, path, target) then
      Stepped(st, Err(MoveOrCopy(i)))
    else if copy then
      Logged(st.(fs := Copied(st.fs, path, target)), i, CopiedTo(name, dest), faults)
    else
      Logged(st.(fs := Renamed(st.fs, path, target)), i, MovedTo(name, dest), faults)
  }

  /**
    One pass of the loop, for the entry `name` of `dir` at position `i`:
    the bar advances once when the step succeeds and not at all when it
    fails, and at most one record, never a summary, is written.
   */
  function Step(st: State, dir: Path, cfg: Config, i: nat, name: string,
                faults: set<IoStep>): (r: Stepped)
    ensures r.outcome.Ok? ==> r.state.progress == st.progress + 1
    ensures r.outcome.Ok? ==> |st.log| <= |r.state.log| <= |st.log| + 1
    ensures r.outcome.Ok? ==> r.state.log[..|st.log|] == st.log
    ensures r.outcome.Ok? && |r.state.log| > |st.log| ==> !r.state.log[|st.log|].Summary?
    ensures r.outcome.Err? ==> r.state.progress == st.progress && r.state.log == st.log
    ensures r.outcome.Err? ==>
      r.outcome.at in {NextEntry(i), CreateDestination(i), MoveOrCopy(i), WriteRecord(i)}
  {
    if NextEntry(i) in faults then Stepped(st, Err(NextEntry(i)))
    else
      var path := dir + [name];
      match Classify(IsDirIn(st.fs, path), name, cfg.includeHidden)
      case SkipDirectory => Logged(st, i, SkippedSubdirectory(path), faults)
      case SkipHidden => Logged(st, i, SkippedHidden(path), faults)
      case ToExtensionDir(ext) =>
        var dest := ExtensionDestination(dir, ext);
        var made := EnsureDirectory(st, dest, i, faults);
        if made.outcome.Err? then made
        else if Parent(path) == Some(dest) then
          Stepped(made.state.(progress := made.state.progress + 1), Ok)
        else Place(made.state, i, path, dest, name, cfg.copy, faults)
      case ToOthersDir =>
        var dest := OthersDestination(dir, cfg.othersDirectory);
        var made := EnsureDirectory(st, dest, i, faults);
        if made.outcome.Err? then made
        else Place(made.state, i, path, dest, name, cfg.copy, faults)
  }

  /**
    The loop over the listing `names`, stopping at the first failure. When
    it completes, the bar has advanced once per entry; in any case the
    earlier log is kept and only entry records, at most one per entry, are
    added.
   */
  function Loop(st0: State, dir: Path, cfg: Config, names: seq<string>,
                faults: set<IoStep>): (r: Stepped)
    ensures st0.log <= r.state.log && |r.state.log| <= |st0.log| + |names|
    ensures NoSummary(r.state.log[|st0.log|..])
    ensures r.outcome.Ok? ==> r.state.progress == st0.progress + |names|
    ensures r.outcome.Err? ==> r.state.progress < st0.progress + |names|
    ensures r.outcome.Err? ==> AtEntry(r.outcome.at, |names|)
    decreases |names|
  {
    if names == [] then Stepped(st0, Ok)
    else
      var prev := Loop(st0, dir, cfg, names[..|names| - 1], faults);
      if prev.outcome.Err? then prev
      else
        var r := Step(prev.state, dir, cfg, |names| - 1, names[|names| - 1], faults);
        NoSummaryGrows(st0.log, prev.state.log, r.state.log);
        r
  }

  /** A log without summaries after `base` keeps none when at most one non-summary record is added. */
  lemma NoSummaryGrows(base: seq<Record>, mid: seq<Record>, last: seq<Record>)
    requires base <= mid && NoSummary(mid[|base|..])
    requires |mid| <= |last| <= |mid| + 1 && last[..|mid|] == mid
    requires |last| > |mid| ==> !last[|mid|].Summary?
    ensures base <= last && NoSummary(last[|base|..])
  {
    assert last[|base|..] == mid[|base|..] + last[|mid|..];
  }

  /**
    A whole call of `organise_files` on `dir`: the log is opened and the
    directory listed (either can fail before anything happens), the loop
    runs, and only when it completes is the summary record written.
   */
  function Organise(fs: Nodes, log: seq<Record>, dir: Path, cfg: Config,
                    order: seq<string>, faults: set<IoStep>): (r: Stepped)
    ensures log <= r.state.log
    ensures r.outcome == Err(OpenLog) || r.outcome == Err(ReadDir) ==> r.state == State(fs, log, 0)
    ensures r.outcome.Ok? ==> r.state.progress == |order|
    ensures r.outcome.Ok? ==> |r.state.log| > |log| && r.state.log[|r.state.log| - 1] == Summary(|order|)
    ensures r.outcome.Ok? ==> NoSummary(r.state.log[|log|..|r.state.log| - 1])
    ensures r.outcome.Err? ==> NoSummary(r.state.log[|log|..])
  {
    if OpenLog in faults then Stepped(State(fs, log, 0), Err(OpenLog))
    else if ReadDir in faults || !IsDirIn(fs, dir) then Stepped(State(fs, log, 0), Err(ReadDir))
    else
      var run := Loop(State(fs, log, 0), dir, cfg, order, faults);
      if run.outcome.Err? then run
      else if WriteSummary in faults then Stepped(run.state, Err(WriteSummary))
      else
        var last := run.state.log + [Summary(|order|)];
        assert last[|log|..|last| - 1] == run.state.log[|log|..];
        Stepped(run.state.(log := last), Ok)
  }

  /**
    A loop that completes over `names` and then a pass over the next entry
    that completes make a loop over both that completes.
   */
  lemma LoopSnoc(st0: State, dir: Path, cfg: Config, names: seq<string>, name: string,
                 faults: set<IoStep>, mid: State, next: State)
    requires Loop(st0, dir, cfg, names, faults) == Stepped(mid, Ok)
    requires Step(mid, dir, cfg, |names|, name, faults) == Stepped(next, Ok)
    ensures Loop(st0, dir, cfg, names + [name], faults) == Stepped(next, Ok)
  {
    assert (names + [name])[..|names|] == names;
  }

  /** Once the loop has failed on a prefix of the listing, the rest changes nothing. */
  lemma {:induction false} LoopStopsAtFailure(st0: State, dir: Path, cfg: Config,
                                             names: seq<string>, k: nat, faults: set<IoStep>)
    requires k <= |names|
    requires Loop(st0, dir, cfg, names[..k], faults).outcome.Err?
    ensures Loop(st0, dir, cfg, names, faults) == Loop(st0, dir, cfg, names[..k], faults)
    decreases |names| - k
  {
    if k < |names| {
      assert names[..k + 1][..k] == names[..k];
      LoopStopsAtFailure(st0, dir, cfg, names, k + 1, faults);
    } else {
      assert names[..k] == names;
    }
  }

  /**
    A loop that fails does so in the pass for entry `j`, the index its
    failure names: the passes for the entries before `j` all completed, and
    the result is what the failing pass left, with nothing undone.
   */
  lemma LoopFailsAt(st0: State, dir: Path, cfg: Config, names: seq<string>, faults: set<IoStep>)
    requires Loop(st0, dir, cfg, names, faults).outcome.Err?
    ensures var r := Loop(st0, dir, cfg, names, faults);
      var j := r.outcome.at.index;
      && j < |names|
      && Loop(st0, dir, cfg, names[..j], faults).outcome.Ok?
      && r == Step(Loop(st0, dir, cfg, names[..j], faults).state, dir, cfg, j, names[j], faults)
  {
    LoopFailedPrefix(st0, dir, cfg, names, faults);
    var j := Loop(st0, dir, cfg, names, faults).outcome.at.index;
    var upTo := names[..j + 1];
    assert upTo[..j] == names[..j];
    LoopLastPass(st0, dir, cfg, upTo, faults);
  }

  /**
    The failing loop ends as the loop over the entries up to and including
    entry `j`, the index its failure names, and the loop over the entries
    before `j` completed.
   */
  lemma {:induction false} LoopFailedPrefix(st0: State, dir: Path, cfg: Config, names: seq<string>,
                                           faults: set<IoStep>)
    requires Loop(st0, dir, cfg, names, faults).outcome.Err?
    ensures var r := Loop(st0, dir, cfg, names, faults);
      var j := r.outcome.at.index;
      && j < |names|
      && Loop(st0, dir, cfg, names[..j], faults).outcome.Ok?
      && Loop(st0, dir, cfg, names[..j + 1], faults) == r
    decreases |names|
  {
    var front := names[..|names| - 1];
    if Loop(st0, dir, cfg, front, faults).outcome.Ok? {
      FailedAtLast(st0, dir, cfg, names, faults);
    } else {
      LoopFailedPrefix(st0, dir, cfg, front, faults);
      FailedPrefixExtends(st0, dir, cfg, names, faults);
    }
  }

  /** The step of `LoopFailedPrefix` where the failure lies in the pass over the last entry. */
  lemma FailedAtLast(st0: State, dir: Path, cfg: Config, names: seq<string>, faults: set<IoStep>)
    requires names != []
    requires Loop(st0, dir, cfg, names[..|names| - 1], faults).outcome.Ok?
    requires Loop(st0, dir, cfg, names, faults).outcome.Err?
    ensures Loop(st0, dir, cfg, names, faults).outcome.at.index == |names| - 1
    ensures names[..|names|] == names
  {
    LoopLastPass(st0, dir, cfg, names, faults);
  }

  /** The step of `LoopFailedPrefix` where the failure lies before the last entry. */
  lemma FailedPrefixExtends(st0: State, dir: Path, cfg: Config, names: seq<string>, faults: set<IoStep>)
    requires names != [] && Loop(st0, dir, cfg, names[..|names| - 1], faults).outcome.Err?
    requires var prev := Loop(st0, dir, cfg, names[..|names| - 1], faults);
      var j := prev.outcome.at.index;
      && j < |names| - 1
      && Loop(st0, dir, cfg, names[..|names| - 1][..j], faults).outcome.Ok?
      && Loop(st0, dir, cfg, names[..|names| - 1][..j + 1], faults) == prev
    ensures var r := Loop(st0, dir, cfg, names, faults);
      var j := r.outcome.at.index;
      && r.outcome.Err?
      && j < |names|
      && Loop(st0, dir, cfg, names[..j], faults).outcome.Ok?
      && Loop(st0, dir, cfg, names[..j + 1], faults) == r
  {
    LoopLastFailed(st0, dir, cfg, names, faults);
    PrefixOfFront(names, Loop(st0, dir, cfg, names[..|names| - 1], faults).outcome.at.index);
  }

  /** The first `j` (or `j + 1`) entries of all but the last entry are the first `j` (or `j + 1`) entries. */
  lemma PrefixOfFront<T>(s: seq<T>, j: nat)
    requires j < |s| - 1
    ensures s[..|s| - 1][..j] == s[..j] && s[..|s| - 1][..j + 1] == s[..j + 1]
  {
  }

  /** Once the loop over all but the last entry has failed, the loop over all of them ends the same way. */
  lemma LoopLastFailed(st0: State, dir: Path, cfg: Config, names: seq<string>, faults: set<IoStep>)
    requires names != [] && Loop(st0, dir, cfg, names[..|names| - 1], faults).outcome.Err?
    ensures Loop(st0, dir, cfg, names, faults) == Loop(st0, dir, cfg, names[..|names| - 1], faults)
  {
  }

  /** Once the loop over all but the last entry has completed, the loop over all of them adds a pass over the last. */
  lemma LoopLastPass(st0: State, dir: Path, cfg: Config, names: seq<string>, faults: set<IoStep>)
    requires names != [] && Loop(st0, dir, cfg, names[..|names| - 1], faults).outcome.Ok?
    ensures Loop(st0, dir, cfg, names, faults)
      == Step(Loop(st0, dir, cfg, names[..|names| - 1], faults).state, dir, cfg, |names| - 1, names[|names| - 1], faults)
  {
  }

  /**
    A loop over the first `k` entries that completes has completed over the
    first `k - 1` and then passed over entry `k - 1`.
   */
  lemma LoopPrefixPass(st0: State, dir: Path, cfg: Config, names: seq<string>, faults: set<IoStep>, k: nat)
    requires 0 < k <= |names| && Loop(st0, dir, cfg, names[..k], faults).outcome.Ok?
    ensures Loop(st0, dir, cfg, names[..k - 1], faults).outcome.Ok?
    ensures Loop(st0, dir, cfg, names[..k], faults)
      == Step(Loop(st0, dir, cfg, names[..k - 1], faults).state, dir, cfg, k - 1, names[k - 1], faults)
  {
    var upTo := names[..k];
    assert upTo[..k - 1] == names[..k - 1];
    if Loop(st0, dir, cfg, names[..k - 1], faults).outcome.Err? {
      LoopLastFailed(st0, dir, cfg, upTo, faults);
    } else {
      LoopLastPass(st0, dir, cfg, upTo, faults);
    }
  }

  // ---------------------------------------------------------------------
  // The run itself
  // ---------------------------------------------------------------------

  /** The log file, opened for appending. */
  class LogFile {
    var records: seq<Record>

    constructor (records: seq<Record>)
      ensures this.records == records
    {
      this.records := records;
    }

    /** `writeln!` of one record; the earlier records stay. */
    method WriteLine(r: Record, injected: bool) returns (ok: bool)
      modifies this
      ensures ok == !injected
      ensures records == if ok then old(records) + [r] else old(records)
    {
      ok := !injected;
      if ok {
        records := records + [r];
      }
    }
  }

  /** The progress bar: a length fixed at creation and a position. */
  class ProgressBar {
    var length: nat
    var position: nat
    var finished: bool

    constructor (length: nat)
      ensures this.length == length && position == 0 && !finished
    {
      this.length := length;
      position := 0;
      finished := false;
    }

    method Inc()
      modifies this
      ensures position == old(position) + 1
      ensures length == old(length) && finished == old(finished)
    {
      position := position + 1;
    }

    method FinishWithMessage()
      modifies this
      ensures finished
      ensures position == old(position) && length == old(length)
    {
      finished := true;
    }
  }

  /**
    Writing the record of entry `i` and advancing the bar, as `Logged`
    says; the filesystem is not touched.
   */
  method LogEntry(logFile: LogFile, pb: ProgressBar, fs: Nodes, i: nat, rec: Record,
                  faults: set<IoStep>)
    returns (outcome: Outcome)
    modifies logFile, pb
    ensures var r := Logged(State(fs, old(logFile.records), old(pb.position)), i, rec, faults);
      logFile.records == r.state.log && pb.position == r.state.progress && outcome == r.outcome
    ensures pb.length == old(pb.length) && pb.finished == old(pb.finished)
  {
    var ok := logFile.WriteLine(rec, WriteRecord(i) in faults);
    if !ok {
      return Err(WriteRecord(i));
    }
    pb.Inc();
    outcome := Ok;
  }

  /** Creating the destination when it does not exist, as `EnsureDirectory` says. */
  method MakeDestination(disk: FileSystem, destination: Path, i: nat, faults: set<IoStep>)
    returns (outcome: Outcome)
    modifies disk
    ensures var r := EnsureDirectory(State(old(disk.nodes), [], 0), destination, i, faults);
      disk.nodes == r.state.fs && outcome == r.outcome
  {
    outcome := Ok;
    if !disk.Exists(destination) {
      var ok := disk.CreateDir(destination, CreateDestination(i) in faults);
      if !ok {
        outcome := Err(CreateDestination(i));
      }
    }
  }

  /**
    The body of the loop for the entry `name` at position `i`, with the
    source's early `continue`s as returns. It changes the filesystem, the
    log and the bar exactly as `Step` says.
   */
  method ProcessEntry(disk: FileSystem, logFile: LogFile, pb: ProgressBar, directory: Path,
                      config: Config, i: nat, name: string, faults: set<IoStep>)
    returns (outcome: Outcome)
    modifies disk, logFile, pb
    ensures var r := Step(State(old(disk.nodes), old(logFile.records), old(pb.position)),
                          directory, config, i, name, faults);
      State(disk.nodes, logFile.records, pb.position) == r.state && outcome == r.outcome
    ensures pb.length == old(pb.length) && pb.finished == old(pb.finished)
  {
    if NextEntry(i) in faults {
      return Err(NextEntry(i));
    }
    var path := directory + [name];

    if disk.IsDirectory(path) {
      outcome := LogEntry(logFile, pb, disk.nodes, i, SkippedSubdirectory(path), faults);
      return;
    }

    if !config.includeHidden && IsHidden(name) {
      outcome := LogEntry(logFile, pb, disk.nodes, i, SkippedHidden(path), faults);
      return;
    }

    outcome := SortFile(disk, logFile, pb, directory, config, i, name, faults);
  }

  /**
    The rest of the loop body, for an entry that is a file and is not
    skipped as hidden: it goes to the directory of its extension or to the
    catch-all directory, as `Step` says.
   */
  method SortFile(disk: FileSystem, logFile: LogFile, pb: ProgressBar, directory: Path,
                  config: Config, i: nat, name: string, faults: set<IoStep>)
    returns (outcome: Outcome)
    requires NextEntry(i) !in faults
    requires !IsDirIn(disk.nodes, directory + [name])
    requires config.includeHidden || !IsHidden(name)
    modifies disk, logFile, pb
    ensures var r := Step(State(old(disk.nodes), old(logFile.records), old(pb.position)),
                          directory, config, i, name, faults);
      State(disk.nodes, logFile.records, pb.position) == r.state && outcome == r.outcome
    ensures pb.length == old(pb.length) && pb.finished == old(pb.finished)
  {
    var path := directory + [name];
    var extension := Extension(name);
    var destination := if extension.Some? then ExtensionDestination(directory, Lower(extension.value))
                       else OthersDestination(directory, config.othersDirectory);
    outcome := MakeDestination(disk, destination, i, faults);
    if outcome.Err? {
      return;
    }
    // Only a file with an extension is checked for being in place already.
    if extension.Some? && Parent(path) == Some(destination) {
      pb.Inc();
      return;
    }

    outcome := PlaceFile(disk, logFile, pb, i, path, destination, name, config.copy, faults);
  }

  /**
    The move or copy of one file into `destination` and its log record,
    which the source writes out once in each branch. It changes the
    filesystem, the log and the bar exactly as `Place` says.
   */
  method PlaceFile(disk: FileSystem, logFile: LogFile, pb: ProgressBar, i: nat, path: Path,
                   destination: Path, name: string, copy: bool, faults: set<IoStep>)
    returns (outcome: Outcome)
    modifies disk, logFile, pb
    ensures var r := Place(State(old(disk.nodes), old(logFile.records), old(pb.position)),
                           i, path, destination, name, copy, faults);
      State(disk.nodes, logFile.records, pb.position) == r.state && outcome == r.outcome
    ensures pb.length == old(pb.length) && pb.finished == old(pb.finished)
  {
    var target := destination + [name];
    var ok;
    if copy {
      ok := disk.Copy(path, target, MoveOrCopy(i) in faults);
    } else {
      ok := disk.Rename(path, target, MoveOrCopy(i) in faults);
    }
    if !ok {
      return Err(MoveOrCopy(i));
    }
    var record := if copy then CopiedTo(name, destination) else MovedTo(name, destination);
    outcome := LogEntry(logFile, pb, disk.nodes, i, record, faults);
  }

  /**
    The `for` loop over the listing `order`: it changes the filesystem, the
    log and the bar exactly as `Loop` says, starting from the bar's
    current position, and stops at the first failure.
   */
  method ProcessEntries(disk: FileSystem, logFile: LogFile, pb: ProgressBar, directory: Path,
                        config: Config, order: seq<string>, faults: set<IoStep>)
    returns (outcome: Outcome)
    modifies disk, logFile, pb
    ensures var r := Loop(State(old(disk.nodes), old(logFile.records), old(pb.position)),
                          directory, config, order, faults);
      State(disk.nodes, logFile.records, pb.position) == r.state && outcome == r.outcome
    ensures pb.length == old(pb.length) && pb.finished == old(pb.finished)
  {
    ghost var start := State(disk.nodes, logFile.records, pb.position);
    assert order[..0] == [];
    for i := 0 to |order|
      invariant pb.length == old(pb.length) && pb.finished == old(pb.finished)
      invariant Loop(start, directory, config, order[..i], faults)
        == Stepped(State(disk.nodes, logFile.records, pb.position), Ok)
    {
      assert order[..i + 1][..i] == order[..i];
      outcome := ProcessEntry(disk, logFile, pb, directory, config, i, order[i], faults);
      if outcome.Err? {
        LoopStopsAtFailure(start, directory, config, order, i + 1, faults);
        return;
      }
    }
    assert order[..|order|] == order;
    outcome := Ok;
  }

  /**
    `organise_files(directory, config)`. The listing of `directory` comes in
    the order `order`; `faults` says which I/O calls fail. The filesystem,
    the log and the returned outcome are those `Organise` describes; the
    progress bar exists once the directory has been listed, has the
    listing's length, stands where `Organise` says and is finished only on
    success.
   */
  method OrganiseFiles(disk: FileSystem, logFile: LogFile, directory: Path, config: Config,
                       order: seq<string>, faults: set<IoStep>)
    returns (result: Outcome, bar: ProgressBar?)
    requires disk.IsDirectory(directory) ==> IsListing(disk.nodes, directory, order)
    modifies disk, logFile
    ensures var r := Organise(old(disk.nodes), old(logFile.records), directory, config, order, faults);
      disk.nodes == r.state.fs && logFile.records == r.state.log && result == r.outcome
    ensures bar == null <==> result == Err(OpenLog) || result == Err(ReadDir)
    ensures bar != null ==>
      && fresh(bar) && bar.length == |order| && bar.finished == result.Ok?
      && bar.position
         == Organise(old(disk.nodes), old(logFile.records), directory, config, order, faults).state.progress
  {
    if OpenLog in faults {
      return Err(OpenLog), null;
    }
    if ReadDir in faults || !disk.IsDirectory(directory) {
      return Err(ReadDir), null;
    }
    var pb := new ProgressBar(|order|);
    bar := pb;
    result := ProcessEntries(disk, logFile, pb, directory, config, order, faults);
    if result.Err? {
      return;
    }

    var ok := logFile.WriteLine(Summary(pb.length), WriteSummary in faults);
    if !ok {
      return Err(WriteSummary), bar;
    }
    pb.FinishWithMessage();
    result := Ok;
  }
}
