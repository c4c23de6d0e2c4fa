# File organiser: a Dafny model of `organise_files`

This project models the core of a small Rust file organiser. The function
`organise_files(directory, config)` in `src/lib.rs` takes one directory.
It leaves subdirectories alone and, unless `include_hidden` is set, it also
leaves alone files whose names start with '.'. Every other file is moved
(or copied, when `copy` is set):

- a file with an extension goes into a subdirectory named after its
  extension, lower-cased;
- a file without an extension goes into the catch-all directory named by
  `others_directory`.

Every action is logged. A progress bar advances once per entry. A summary
record closes the log. The first I/O error stops the run.

The model is split into modules that follow this structure:

- `Paths` (paths.dfy) covers the parts of Rust's `std::path` the function
  relies on: `extension`, `file_stem`, `join`, `parent` and
  `with_extension("")`. Names follow Rust's rules: ".." has no extension,
  ".env" has none, "a." has the empty one.
- `Planner` (planner.dfy) holds the configuration and the per-entry decision:
  - `Classify`, with directories checked first, hidden names second and the
    extension last;
  - the two destination functions.
- `Disk` (disk.dfy) is the filesystem as a class over a map from paths to
  files and directories. It provides `create_dir`, `rename` and `copy`.
  Each of them fails when the map does not allow it or when the caller
  injects a failure.
- `Organiser` (organiser.dfy) has two halves:
  - the specification functions `Step` (one pass of the loop), `Loop` and
    `Organise` (the whole call), over a state made of the filesystem, the
    log and the bar's position;
  - the imperative run itself: `OrganiseFiles`, with `ProcessEntry` and
    `PlaceFile`. Each is proved to change the filesystem, the `LogFile` and
    the `ProgressBar` exactly as the matching function says.

  Which I/O calls fail is a parameter: a set of `IoStep`s, each naming one
  call.
- `EntryProperties` (properties.dfy) states what one pass does, entry kind by
  entry kind.
- `RunProperties` (run_properties.dfy) states what a whole run does. After
  a successful run every listed entry is where its classification sends it,
  with its contents. A run that fails is not rolled back: the entries
  before the failing one stay placed and their records stay in the log.
- `SecondRun` (second_run.dfy) shows that running the organiser again on
  what a successful run left, with the same settings, changes no file or
  directory; it only adds records.
- `Scenario` (scenario.dfy) works one run through to the exact final
  filesystem and log.

The summary record counts every listed entry, skipped ones included,
because the code writes `pb.length()`, the length the progress bar was
created with (src/lib.rs:60, 169). For the five-entry scenario, where two
entries are skipped, it counts 5 (`Scenario.ScenarioRun`).

## Model

| member | source | states |
|---|---|---|
| Paths.LastDot | src/lib.rs:82 | the position found holds a '.' and no '.' follows it; no position means the name has no '.' at all |
| Paths.Extension | src/lib.rs:82 | an extension contains no '.' and is at least two characters shorter than the name (a '.' and a non-empty stem precede it); `StemDotExtension`, `ExtensionOfJoined` and `NoExtensionIff` say exactly when there is one and what it is |
| Paths.FileStem | src/lib.rs:84 | the stem is a prefix of the name and is non-empty for a non-empty name; `StemIsNameIff` says when it is the whole name |
| Paths.StemDotExtension | src/lib.rs:82 | a name with an extension is its non-empty stem, a '.' and its dot-free extension |
| Paths.ExtensionOfJoined | src/lib.rs:82 | joining a non-empty stem and a dot-free extension (other than "..") gives back that extension and stem |
| Paths.NoExtensionIff | src/lib.rs:122 | a name has no extension exactly when it is ".." or has no '.' after its first character |
| Paths.StemIsNameIff | src/lib.rs:84 | `file_stem` returns the whole name exactly when there is no extension |
| Paths.Lower | src/lib.rs:83 | the result has the same length and no upper-case letter; an upper-case letter becomes the letter 32 code points later, its lower-case form, and every other character stays where it was, '.' included |
| Paths.LowerKeepsDots | src/lib.rs:83 | lower-casing neither adds nor removes a '.' |
| Paths.LowerPlain | src/lib.rs:83 | a string without upper-case letters is its own lower-casing |
| Paths.LowerIdempotent | src/lib.rs:83 | lower-casing a lower-cased extension changes nothing |
| Paths.Join | src/lib.rs:84 | `Path::join` with one relative component (also at src/lib.rs:99, 124 and 131): joining "" adds nothing, any other name adds one level; `OthersDestinationShape` and `ExtensionDestinationOneLevelDown` state the result |
| Paths.Parent | src/lib.rs:91 | `Path::parent`: the root has none, any other path has the path without its last component; `AlreadyPlacedIff` states when the parent test at this line holds |
| Paths.WithEmptyExtension | src/lib.rs:84 | `with_extension("")` keeps the path's length and parent, and its new last component is a prefix of the old one, non-empty when the old one was |
| Paths.WithEmptyExtensionPlain | src/lib.rs:84 | `join(ext).with_extension("")` with a non-empty, dot-free `ext` is the directory one level down |
| Planner.IsHidden | src/lib.rs:75 | a name is hidden when it starts with '.'; `ClassifyDecision`, `HiddenBeforeExtension` and `DotfileRouting` state how it decides the route |
| Planner.Classify | src/lib.rs:68-82 | an entry is skipped as a directory exactly when it is one; an extension route carries a dot-free extension of a name that has one; `ClassifyDecision` gives all four routes in both directions |
| Planner.ExtensionDestination | src/lib.rs:84 | for a non-empty extension the destination lies directly below `dir` and has a non-empty name; for the empty extension it is at `dir`'s own depth; `ExtensionDestinationOneLevelDown`, `AlreadyPlacedIff` and `EmptyExtensionLeavesDirectory` say which directory |
| Planner.OthersDestination | src/lib.rs:124 | the catch-all destination is the child of `dir` named by the setting, or `dir` itself when the setting is empty |
| Planner.ClassifyDecision | src/lib.rs:68-84 | the four routes partition the entries, each in both directions: directory; hidden file with hidden excluded; file with an extension; file without. The extension route carries the lower-cased, dot-free extension |
| Planner.HiddenBeforeExtension | src/lib.rs:75-82 | ".a.txt" has the extension "txt" yet is skipped when hidden files are excluded, and is routed to "txt" when they are included |
| Planner.DotfileRouting | src/lib.rs:75-79 | a dotfile with no other '.' is skipped when hidden files are excluded and goes to the catch-all directory when they are included |
| Planner.CaseInsensitiveRouting | src/lib.rs:83 | extensions equal up to case route two files to the same place |
| Planner.CaseInsensitiveExample | src/lib.rs:83-84 | "a.TXT" and "b.txt" both go to `<dir>/txt` |
| Planner.ExtensionDestinationOneLevelDown | src/lib.rs:84 | a non-empty extension routes to `<dir>/<lower-cased extension>` |
| Planner.AlreadyPlacedIff | src/lib.rs:91 | the "already in the right directory" test holds for an entry of `dir` exactly when its extension is empty and `dir`'s own name has no extension |
| Planner.EmptyExtensionLeavesDirectory | src/lib.rs:84 | when `dir`'s name has an extension, the destination for a name ending in '.' is a sibling of `dir`, not `dir` |
| Planner.EmptyExtensionExample | src/lib.rs:82-84 | "a." in "/home/foo.bar" is routed to "/home/foo" |
| Planner.OthersDestinationShape | src/lib.rs:124 | the catch-all destination is `<dir>/<others>` directly below `dir`, or `dir` itself when `others` is empty |
| Disk.Renamed | src/lib.rs:112 | the target holds the source's node and, unless the two are the same path, the source is gone; `RenamedMoves` adds that nothing else changes |
| Disk.Copied | src/lib.rs:102 | the target holds the source's node and the source is still there with it; `CopiedDuplicates` adds that nothing else changes |
| Disk.RenamedMoves | src/lib.rs:112 | after a rename the target holds the source's node, the source is gone unless it is the target, and no other path changes |
| Disk.CopiedDuplicates | src/lib.rs:102 | after a copy the target holds the source's node, the source keeps it, and no other path changes |
| Disk.FileSystem.Exists | src/lib.rs:86 | a path exists exactly when it is a directory or a regular file |
| Disk.FileSystem.IsDirectory | src/lib.rs:68 | a directory exists and is not a regular file, and an existing non-file is a directory |
| Disk.FileSystem.CreateDir | src/lib.rs:86-88 | creation succeeds exactly when no failure is injected, the path is new and its parent is a directory; on success only that directory is added; the success condition is the predicate `Disk.CanCreateDir`, also used at src/lib.rs:127 |
| Disk.FileSystem.Rename | src/lib.rs:146 | renaming a regular file succeeds exactly when no failure is injected, the target's parent is a directory and the target is not a directory; the new map is the renamed one, or the old one; the success condition is the predicate `Disk.CanTransfer`, also used at src/lib.rs:112 |
| Disk.FileSystem.Copy | src/lib.rs:136 | the same success condition as a rename (`Disk.CanTransfer`, also used at src/lib.rs:102); the new map is the copied one, or the old one |
| Organiser.IsListing | src/lib.rs:55 | what `read_dir` promises: every name listed is a child of `dir`, none twice, and every child is listed |
| Organiser.Logged | src/lib.rs:69-70 | writing a record appends it and advances the bar, or fails at that write and changes nothing |
| Organiser.EnsureDirectory | src/lib.rs:126-128 | the destination exists afterwards, or the step fails at creating it and nothing changes |
| Organiser.Place | src/lib.rs:98-121 | on success the bar advances once and exactly one "moved" or "copied" record naming the file and its destination directory is added; a failure is at the move/copy or at the record, with log and bar unchanged |
| Organiser.Step | src/lib.rs:64-158 | a successful pass advances the bar exactly once and adds at most one record, never a summary, after the old log; a failing pass leaves bar and log as they were and fails at a call of that entry |
| Organiser.Loop | src/lib.rs:64-159 | the earlier log is a prefix of the new one, with at most one record per entry and no summary added; on success the bar has advanced once per entry; a failure is at one of the entries and leaves the bar short of the total |
| Organiser.Organise | src/lib.rs:44-174 | failing to open the log or to list the directory changes nothing; a success advances the bar once per listed entry and ends the log with exactly one summary record counting the entries listed; a failure adds no summary; `RunKeepsEarlierEntries` states that a failure undoes nothing done before it |
| Organiser.LoopSnoc | src/lib.rs:64-159 | a completed loop over some entries followed by a completed pass over the next one is a completed loop over all of them |
| Organiser.LoopFailsAt | src/lib.rs:64-159 | a failing loop fails in the pass for the entry its failure names; the passes before it all completed and the result is what the failing pass left |
| Organiser.LoopFailedPrefix | src/lib.rs:64-159 | a failing loop ends as the loop over the entries up to and including the failing one, and the loop over the entries before it completed |
| Organiser.LoopLastFailed | src/lib.rs:65 | once the loop over all but the last entry has failed, the loop over all of them ends the same way |
| Organiser.LoopLastPass | src/lib.rs:64-159 | once the loop over all but the last entry has completed, the loop over all of them is a pass over the last one after it |
| Organiser.LoopPrefixPass | src/lib.rs:64-159 | a loop over the first k entries that completes has completed over the first k - 1 and then passed over entry k - 1 |
| Organiser.LoopStopsAtFailure | src/lib.rs:65 | once a pass fails, the `?` ends the run: the later entries change nothing |
| Organiser.LogFile.WriteLine | src/lib.rs:69 | a write appends one record, or fails and leaves the log as it was |
| Organiser.ProgressBar.constructor | src/lib.rs:60 | the bar is created with the listing's length, at position 0, unfinished |
| Organiser.ProgressBar.Inc | src/lib.rs:158 | the position advances by one; nothing else changes |
| Organiser.ProgressBar.FinishWithMessage | src/lib.rs:172 | the bar is finished; its position and length stay |
| Organiser.LogEntry | src/lib.rs:76-77 | writing an entry's record and ticking the bar change the log and bar exactly as `Logged` says |
| Organiser.MakeDestination | src/lib.rs:126-128 | creating a missing destination changes the filesystem exactly as `EnsureDirectory` says |
| Organiser.ProcessEntry | src/lib.rs:65-158 | one iteration of the loop changes the filesystem, log and bar exactly as `Step` says and returns its outcome; the bar's length stays |
| Organiser.SortFile | src/lib.rs:82-158 | for a file that is not skipped, the rest of the loop body changes the filesystem, log and bar exactly as `Step` says |
| Organiser.PlaceFile | src/lib.rs:130-155 | the move or copy and its record change the filesystem, log and bar exactly as `Place` says |
| Organiser.ProcessEntries | src/lib.rs:64-159 | the `for` loop changes the filesystem, log and bar exactly as `Loop` says, and stops at the first failure |
| Organiser.OrganiseFiles | src/lib.rs:44-174 | the run leaves filesystem and log as `Organise` says and returns its outcome. No bar exists when opening the log or listing fails. Otherwise a new bar has the listing's length, stands at `Organise`'s progress and is finished only on success |
| EntryProperties.SubdirectoryIsSkipped | src/lib.rs:68-72 | a subdirectory is left in place with one "skipping subdirectory" record and one tick of the bar, or the step fails at that record |
| EntryProperties.HiddenFileIsSkipped | src/lib.rs:75-79 | with hidden files excluded, a hidden file is left in place with one "skipping hidden file" record and one tick of the bar, or the step fails at that record |
| EntryProperties.FileWithExtensionIsPlaced | src/lib.rs:82-121 | a successful step for a file with an extension, not already in place: the destination is a directory; the file's contents are at `<dest>/<name>`; a move removes the source and a copy keeps it; nothing else changes; one "moved"/"copied" record; one tick of the bar |
| EntryProperties.FileWithoutExtensionIsPlaced | src/lib.rs:122-155 | the same for a file without an extension and the catch-all directory |
| EntryProperties.PlacedFile | src/lib.rs:98-112 | the shared tail of both branches: after the destination is ensured, a successful move or copy transfers the file and changes nothing else |
| EntryProperties.FileAlreadyInPlace | src/lib.rs:90-94 | a file whose parent already is its destination is not moved and gets no record; only the bar advances |
| EntryProperties.OthersBranchHasNoPlacementCheck | src/lib.rs:124-155 | with an empty catch-all name, a file without an extension stays where it is, yet a "moved"/"copied" record is written and the bar advances |
| RunProperties.Target | src/lib.rs:98-99 | every entry's target path ends with the entry's own name |
| RunProperties.KeepsInPlace | src/lib.rs:86-94 | a pass that at most creates the destination keeps every other path |
| RunProperties.KeepsPlaced | src/lib.rs:98-155 | a pass that moves or copies one file creates or changes no file other than its target |
| RunProperties.PlaceKeeps | src/lib.rs:98-155 | a move or copy, whatever its outcome, keeps every path other than the source and the target, creates or changes no file but the target and removes no directory; the source is still there unchanged or the file has been transferred into a directory; on success it has been transferred |
| RunProperties.ExtensionStepKeeps | src/lib.rs:82-121 | the same for a whole pass over a file with an extension, the already-placed case included |
| RunProperties.OthersStepKeeps | src/lib.rs:122-155 | the same for a whole pass over a file without an extension |
| RunProperties.StepKeeps | src/lib.rs:64-158 | any pass, successful or not, keeps every existing path except the entry and its target, creates no other file and removes no directory; it leaves the entry untouched or places it, and a successful pass places it |
| RunProperties.StepKeepsFrom | src/lib.rs:64-158 | `StepKeeps` for an entry still as it was at the start of the run, stated against that starting filesystem |
| RunProperties.PlacedKept | src/lib.rs:64-158 | an entry already placed stays placed through a pass about another name |
| RunProperties.EarlierStayPlaced | src/lib.rs:64-158 | the entries before the current one stay placed through its pass |
| RunProperties.LaterUntouched | src/lib.rs:64-158 | the entries after the current one are untouched by its pass |
| RunProperties.StepKeepsPlaced | src/lib.rs:64-158 | one successful pass extends "the first k entries are placed, the rest untouched" to k + 1 |
| RunProperties.LoopPlacesEntries | src/lib.rs:64-159 | after k successful passes over a listing the first k entries are placed and the others untouched |
| RunProperties.LoopPlacesAll | src/lib.rs:64-159 | after a loop that completes over a listing every entry is placed |
| RunProperties.FailedStepKeeps | src/lib.rs:64-158 | a failing pass over entry j keeps the entries before j placed and the later ones untouched, and leaves entry j untouched or placed |
| RunProperties.LoopFailureKeeps | src/lib.rs:64-159 | a loop that fails at entry j keeps the log and bar of the passes before j; entries before j are placed, entry j is untouched or placed, later entries are untouched |
| RunProperties.RunKeepsEarlierEntries | src/lib.rs:44-174 | a failing run is not rolled back: it fails at opening the log, listing the directory, an entry or the summary; the first two change nothing; a failure at entry j keeps what `LoopFailureKeeps` says; a failure at the summary keeps every entry placed and the whole loop's log |
| RunProperties.RunPlacesEveryEntry | src/lib.rs:44-174 | after a successful run every listed entry is at its target with its original contents; moved files are gone from their old place; copied, skipped and already-placed entries are still there (a copy onto itself: see Disk.FileSystem.Copy under Left out) |
| Scenario.ReportName | src/lib.rs:82-83 | "report.pdf" has the extension "pdf" |
| Scenario.PhotoName | src/lib.rs:82-83 | "photo.JPG" has the extension "JPG", lower-cased "jpg" |
| Scenario.LowerJpg | src/lib.rs:83 | "JPG" lower-cases to "jpg" |
| Scenario.NotesName | src/lib.rs:122 | "notes" has no extension |
| Scenario.MovedStep | src/lib.rs:86-121 | a pass with no failure for a file routed to a missing directory creates that directory, moves the file into it, writes one "moved" record and ticks the bar |
| Scenario.ReportRoutes | src/lib.rs:82-84 | before anything moves, "report.pdf" is routed to "/home/pdf" |
| Scenario.ReportCanMove | src/lib.rs:86-112 | "/home/pdf" can be created and "report.pdf" moved into it |
| Scenario.FirstEntry | src/lib.rs:82-121 | "report.pdf" is moved into the newly created "pdf" |
| Scenario.PhotoRoutes | src/lib.rs:82-84 | after the first move, "photo.JPG" is routed to "/home/jpg" |
| Scenario.PhotoCanMove | src/lib.rs:86-112 | "/home/jpg" can be created and "photo.JPG" moved into it |
| Scenario.SecondEntry | src/lib.rs:82-121 | "photo.JPG" is moved into the newly created "jpg" |
| Scenario.NotesRoutes | src/lib.rs:122-124 | after the first two moves, "notes" is routed to "/home/Others" |
| Scenario.NotesCanMove | src/lib.rs:126-146 | "/home/Others" can be created and "notes" moved into it |
| Scenario.ThirdEntry | src/lib.rs:122-155 | "notes" is moved into the newly created "Others" |
| Scenario.FourthEntry | src/lib.rs:75-79 | ".secret" is skipped as hidden |
| Scenario.FifthEntry | src/lib.rs:68-72 | "archive" is skipped as a subdirectory |
| Scenario.FinalTree | src/lib.rs:98-155 | after the three moves the tree is exactly the original minus the three files plus the three new directories holding them |
| Scenario.ScenarioLog | src/lib.rs:64-158 | the five entry records come in the order of the listing |
| Scenario.AfterFirst | src/lib.rs:64-159 | the loop over "report.pdf" alone completes with the first move |
| Scenario.AfterSecond | src/lib.rs:64-159 | the loop over the first two entries completes with both moves |
| Scenario.AfterThird | src/lib.rs:64-159 | the loop over the first three entries completes with the three moves |
| Scenario.AfterFourth | src/lib.rs:64-159 | the loop over the first four entries completes, the fourth skipped |
| Scenario.ScenarioLoop | src/lib.rs:64-159 | the loop goes through the five entries without failure |
| Scenario.ScenarioRun | src/lib.rs:44-174 | the run succeeds with the exact final tree and the exact log: three moves, two skips, and a summary counting 5 |
| Scenario.AgainStep | src/lib.rs:64-79 | on the organised tree each of the five entries of the new listing is skipped: the three new directories, "archive" as subdirectories, ".secret" as hidden |
| Scenario.AgainLoop | src/lib.rs:64-159 | the loop over the new listing completes, leaving the tree as it is and adding one skip record per entry |
| Scenario.SecondScenarioRun | src/lib.rs:44-174 | running again on the organised tree succeeds, changes no file or directory, and writes four "skipping subdirectory" records, one "skipping hidden file" record and a summary counting 5 |
| SecondRun.PlaceChangesNothing | src/lib.rs:98-155 | moving a file onto itself, or copying it onto an identical file, changes no path |
| SecondRun.SettledStep | src/lib.rs:64-158 | a pass over an entry that is already at its target (or, when copying, already has an identical copy there) changes no path, whatever its outcome |
| SecondRun.LoopSettled | src/lib.rs:64-159 | a loop over settled entries changes no path, whatever its outcome |
| SecondRun.OrganiseSettled | src/lib.rs:44-174 | a run over settled entries changes no path, whatever its outcome |
| SecondRun.TargetChild | src/lib.rs:84-131 | a target directly inside the organised directory is the entry's own path |
| SecondRun.StepKeepsChildFiles | src/lib.rs:64-158 | a pass over an untouched entry puts no new or changed file directly inside the organised directory |
| SecondRun.LoopKeepsChildFiles | src/lib.rs:64-159 | after k completed passes no new or changed file is directly inside the organised directory |
| SecondRun.RunKeepsChildFiles | src/lib.rs:44-174 | after a successful run every file directly inside the organised directory was already there with the same contents |
| SecondRun.PlacedSettled | src/lib.rs:64-158 | a placed entry that is still a file at its own path, in a directory still there, is settled |
| SecondRun.EntrySettled | src/lib.rs:44-174 | after a successful run every entry left directly inside the organised directory is settled |
| SecondRun.SecondRunChangesNothing | src/lib.rs:44-174 | running again with the same settings on what a successful run left, in any listing order and whatever fails, changes no file or directory (a copy onto itself: see Disk.FileSystem.Copy under Left out) |

## Left out

- Timing: the elapsed times in the log and the wall-clock date of the summary (`Instant`, `chrono`) are not modelled. A record holds the entry's facts, without its wording or times.
- Log text: the formatting of the records, `display()` and the lossy UTF-8 conversion of names (`to_string_lossy`) are left out. Names are strings of characters throughout.
- The progress bar's style, spinner, template and message text are left out. The bar is modelled by its length, its position and whether it is finished.
- Paths.Lower: lower-cases ASCII letters only. Rust's `to_lowercase` also folds non-ASCII letters, so extensions that differ only in the case of a non-ASCII letter are routed apart in the model.
- The order of the directory listing is a parameter. Any order that lists each entry of the directory once is allowed, as `fs::read_dir` promises nothing more.
- Paths are sequences of normal components. The components "." and "..", symbolic links, and a catch-all name that holds a separator or is absolute are not interpreted. The catch-all name is taken as one component, or as none when empty.
- Disk.FileSystem.Copy: copying a file onto itself (possible only with an empty catch-all name) is modelled as leaving it unchanged. The operating system may instead fail or truncate the file.
- Why an I/O call fails (permissions, a full disk, a race with other processes) is not modelled. Failures are chosen by the `faults` parameter, in addition to the failures the map itself implies (a missing parent, a directory where a file should go).
- The log file's own place in the filesystem is not modelled. The log is a separate sequence of records, so the log file is never found in the listing.
- `Config`'s deserialisation, the command-line front end `src/main.rs` and the graphical front end `src/gui.rs` are not part of this model.
