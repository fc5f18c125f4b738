# config_tracker: a Dafny model of the folder watcher

`config_tracker.py` watches a handful of configuration files. It shows a side-by-side
Before/After diff every time the content of one of them changes. This project models the
program's core and proves properties of it:

- **The per-file snapshot history.** `Watcher.FolderWatcher` keeps, for each tracked file,
  a queue of at most `history + 1` snapshots. It is seeded at construction with the file's
  text, or with `""` when the file does not exist.
- **The change detector.** `FolderWatcher.HandleEvent` models `_handle_event`.
  - It ignores directory events and events about untracked files.
  - It turns a failed read into the placeholder `[error reading file: <message>]`.
  - Only when the content read differs from the newest snapshot does it append the content and report
    a `Change(path, before, after)`, which is what the source hands to `print_diff`.
- **The diff columns.** `Columns.Classify` is the loop in `print_diff` that sorts the tagged
  lines of `difflib.ndiff` into the Before and After columns.
  - The output of `ndiff` is an input here, constrained by its documented contract (`Columns.ScriptFor`).
    The context and `- ` lines spell the old lines, and the context and `+ ` lines spell the new lines.
  - Under that contract, the columns with their tags stripped are exactly the old text's lines and the new text's lines.
- **Folder grouping.** `Grouping.GroupByParent` is `main`'s loop that files every path under its parent
  directory. `Grouping.StartWatchers` then creates one watcher per folder, with the default history of 1.

Modules:

- `Results`: `Option` and `Result`.
- `Paths`: resolved paths as component lists, and `Parent`.
- `Lines`: `splitlines` and `"\n".join`.
- `History`: the bounded queue.
- `Columns`: the classifier and the ndiff contract.
- `TrimDiff`: a reference diff that meets the contract, so the contract is shown to be satisfiable.
- `Watcher`: the handler as a function on the history map, plus the class.
- `Grouping`: folder grouping and watcher start-up.
- `WatcherScenarios` and `DiffScenarios`: scenarios of short event sequences and small diffs, proved for arbitrary file names, contents and lines.

A file read is a parameter, `Result<string, string>`: the text, or the exception's message.
The files present at startup are a parameter too: `disk`, a map from path to text.

## Model

| member | source | states |
|---|---|---|
| Watcher.FolderWatcher.constructor | config_tracker.py:19-31 | Every distinct file given is tracked, and no other. Each has exactly one snapshot (`SeededFrom`): its text when it exists, `""` otherwise. Histories hold at most `history + 1` entries. |
| Watcher.Handle | config_tracker.py:40-54 | The handler as a function of the histories, the event and the read. Every history stays within the bound and the tracked set is unchanged. With no change reported, the histories are untouched. A reported change is about the event's file, its old and new content differ, and that file's history is its old history with the new content appended (the oldest snapshot dropped when full). |
| Watcher.FolderWatcher.HandleEvent | config_tracker.py:39-54 | The new histories and the reported change are those of `Watcher.Handle` on the old histories. The bound on every history is kept. |
| Watcher.HandleIgnores | config_tracker.py:40-44 | A directory event, or an event about an untracked path, changes no history and reports nothing. |
| Watcher.HandleTracked | config_tracker.py:46-54 | For a tracked file, a change is reported iff the content read (text, or the error placeholder) differs from the newest snapshot, or from `""` if there is none. A change carries the path, that baseline and the new content. The new content becomes the newest snapshot. The history grows by exactly one until it holds `cap` snapshots and then keeps that length, and it is the old one plus the new content, with the oldest snapshot dropped only when full. The bound is kept, the tracked set is unchanged, and every other file's history is untouched. With no change, nothing changes at all. |
| Watcher.HandleRepeat | config_tracker.py:52-53 | Handling the same event with the same read twice: the second time changes nothing and reports nothing. |
| History.BoundedAppend | config_tracker.py:23 | Appending to a `deque(maxlen=cap)` grows it by one until it is full, and then keeps its length. The result is the old queue plus the new element, with the oldest dropped when needed. The new element is last. |
| History.AppendAllWindow | config_tracker.py:23 | After any sequence of appends, the queue is exactly the newest `cap` of all elements ever in it, in order. |
| History.OldestEvicted | config_tracker.py:23 | After `cap` or more appends, only the last `cap` appended snapshots remain. |
| Columns.Classify | config_tracker.py:61-74 | The loop builds exactly `LeftColumn(diff)` and `RightColumn(diff)`, line by line in diff order. |
| Columns.ColumnsSnoc | config_tracker.py:63-74 | One more diff line appends its own entries to each column and leaves the earlier entries alone, so order is kept. |
| Columns.ColumnMarks | config_tracker.py:63-74 | For any input, every Before entry carries tag `"  "` or `"- "`, and every After entry `"  "` or `"+ "`. |
| Columns.TagRoundTrip | config_tracker.py:64-65 | Splitting `code + text` into `line[:2]` and `line[2:]` gives back the two-character tag and the text. |
| Columns.RemovedGoesLeft | config_tracker.py:66-67 | A `"- "` line goes to Before only, as `"- " + text`. |
| Columns.AddedGoesRight | config_tracker.py:68-69 | A `"+ "` line goes to After only, as `"+ " + text`. |
| Columns.HintDropped | config_tracker.py:70-71 | A `"? "` line goes to neither column. |
| Columns.ContextGoesBoth | config_tracker.py:72-74 | A context line goes to both columns unchanged. |
| Columns.OtherGoesBoth | config_tracker.py:72-74 | Any line whose tag is none of `- `, `+ `, `? ` goes to both columns as `"  " + text`. |
| Columns.ColumnsVerbatim | config_tracker.py:61-74 | On a well-formed diff, Before is exactly the diff's context and removed lines, verbatim and in order. After is exactly its context and added lines. |
| Columns.ColumnsRestore | config_tracker.py:57-74 | Stripping the tags off Before and After gives what `difflib.restore` would give for sides 1 and 2. |
| Columns.DiffColumns | config_tracker.py:56-74 | Given any diff meeting ndiff's contract for `before` and `after`, the stripped Before column is `before`'s lines and the stripped After column is `after`'s lines. |
| Lines.SplitLines | config_tracker.py:57-58 | The lines of a text: none exactly when the text is empty, and no line contains a newline. |
| Lines.SplitLinesJoin | config_tracker.py:57-58 | The lines of a text contain no newline. Joining them with `"\n"` gives back the text, up to a final newline. |
| Lines.SplitLinesOfJoin | config_tracker.py:57-58 | Splitting the newline-join of newline-free lines, the last one not empty, gives back those lines. |
| TrimDiff.DiffRestores | config_tracker.py:59 | The reference diff of two line lists is well formed. It restores the first list on the `- ` side and the second on the `+ ` side. |
| TrimDiff.ScriptExists | config_tracker.py:59 | Every pair of texts has a diff meeting ndiff's contract, so `DiffColumns` is callable for every change. |
| TrimDiff.DiffOfEqual | config_tracker.py:59 | The reference diff of a list with itself is all context: no `- ` and no `+ ` line. |
| TrimDiff.CommonPrefix | config_tracker.py:59 | The shared leading lines, as long as possible. |
| Paths.Parent | config_tracker.py:101 | The parent of a path is the path minus its last component. The root is its own parent. |
| Grouping.GroupByParent | config_tracker.py:98-101 | The folder map has exactly the files' parent folders as keys. Each folder maps to the files whose parent it is, in input order. |
| Grouping.GroupInsert | config_tracker.py:100-101 | One `setdefault(parent, []).append(f)` turns the grouping of the files so far into the grouping of those files plus `f`. |
| Grouping.MembersPartition | config_tracker.py:99-101 | Every group member is an input file lying in that group's folder. Each file occurs in its own folder's group exactly as often as in the input, and in no other group. |
| Grouping.MembersSplit | config_tracker.py:100-101 | Grouping keeps input order: the members drawn from a prefix of the files precede those from the rest. |
| Grouping.MembersOutside | config_tracker.py:99-101 | A folder holding none of the files has no members. |
| Grouping.StartWatchers | config_tracker.py:105-107 | There is one new watcher per folder, and watchers of different folders are different objects. Each tracks exactly that folder's files, each file with the single snapshot it starts with (its text, or `""` when missing), and keeps at most two snapshots per file. |
| Grouping.GroupsDiffer | config_tracker.py:99-107 | Two different folders of the input have different members: some file lies in the first group and not in the second. So the watchers of two folders track different files. |
| WatcherScenarios.WriteIntoEmpty | config_tracker.py:46-54 | Text written into a file whose only snapshot is `""` is one change from `""`. Writing the same text again is none. |
| WatcherScenarios.CreatedThenRewritten | config_tracker.py:27-54 | A file missing at startup and then created reports one change from `""`. A second identical write reports nothing, and the history is `["", text]`. |
| WatcherScenarios.NeighbourUntouched | config_tracker.py:40-54 | A change to one file of a folder leaves the other file's history as it was. A directory event is ignored. |
| WatcherScenarios.FailThenRecover | config_tracker.py:46-53 | A failed read, then a successful one, gives two changes: into the error placeholder and out of it. |
| WatcherScenarios.FailureThenRecovery | config_tracker.py:46-53 | The same on a watcher with the default history of 1: only the placeholder and the final text remain. |
| DiffScenarios.ThreeLines | config_tracker.py:57 | Three newline-separated lines, the last not empty, split into those three lines. |
| DiffScenarios.MiddlePieces | config_tracker.py:59 | Lists that differ only in the middle line share the first and the last line. |
| DiffScenarios.ReplaceMiddleLine | config_tracker.py:59 | Replacing the middle of three lines gives context, removed, added, context. |
| DiffScenarios.ReplaceMiddleColumns | config_tracker.py:61-74 | For that diff, Before shows the first line, the removed line and the last line. After shows the first line, the added line and the last line. |
| DiffScenarios.OneLineAdded | config_tracker.py:59 | The diff from no lines to one line adds that line. |
| DiffScenarios.CreatedFile | config_tracker.py:57-74 | A file going from `""` to one line shows an empty Before column and that line, added, in After. |

## Left out

- Event delivery is left out: watchdog's `Observer`, `schedule`/`start`/`stop`/`join` and the sleep/Ctrl-C loop (config_tracker.py:103-119). They are OS notification plumbing and thread lifecycle. `on_modified` and `on_created` only forward to `_handle_event`, so both are modelled by `FolderWatcher.HandleEvent`.
- `rich` rendering is left out: the panels, syntax highlighting, styles, header and rules (config_tracker.py:76-90). This is terminal output. The model keeps the two columns as lists of plain strings.
- File-system calls are parameters. `Path.resolve` is assumed done: paths are canonical component lists. `exists` and `read_text` become the `disk` map and the `read` result. Decoding with `encoding` is out, and so is the `encoding` field.
- Watcher.FolderWatcher.constructor: a file that exists at startup but cannot be read raises out of the source's constructor. The model has no such case: `disk` lists the files that exist, with their text.
- The text of an exception message is foreign: the message is an arbitrary string parameter.
- `difflib.ndiff`'s matching algorithm is not modelled. Its output is an input constrained only by `ScriptFor`, the contract that `difflib.restore` documents. `TrimDiff.Diff` is a simpler diff meeting the same contract and does not reproduce ndiff's alignment or its `? ` hint lines.
- TrimDiff.DiffOfEqual: states "equal texts give no `- ` or `+ ` line" for the reference diff only. ndiff's restore contract alone does not imply it: the script `["- a", "+ a"]` meets that contract for equal inputs `a` and `a`.
- Lines.SplitLines: splits on `'\n'` only, and a trailing `'\n'` adds no empty line. Python's `str.splitlines` also breaks at `\r`, `\r\n`, form feeds and other separators.
- Command-line checking and exit codes (config_tracker.py:94-96) are left out as process glue.
