/**
 * The folder watcher: for every tracked file, a bounded history of the contents it has been
 * seen with, and the handler that turns a file-system event into at most one change.
 */
module Watcher {
  import opened Results
  import opened Paths
  import opened History

  /** The outcome of reading a file's text: the text, or the message of the error raised. */
  type ReadResult = Result<string, string>

  /** A "modified" or "created" notification: whether it is about a directory, and the resolved path. */
  datatype Event = Event(isDirectory: bool, srcPath: Path)

  /** A detected change, as handed to the diff view: the file, its previous and its new content. */
  datatype Change = Change(path: Path, before: string, after: string)

  /** The content recorded for a read: the text itself, or a placeholder naming the error. */
  function Observed(read: ReadResult): string
  {
    match read
    case Ok(text) => text
    case Err(message) => "[error reading file: " + message + "]"
  }

  /** The first snapshot of a file: its text when it exists at startup, "" otherwise. */
  function Seed(disk: map<Path, string>, p: Path): string
  {
    if p in disk then disk[p] else ""
  }

  /** Every history holds the single snapshot its file starts with. */
  predicate SeededFrom(histories: map<Path, seq<string>>, disk: map<Path, string>)
  {
    forall p :: p in histories ==> histories[p] == [Seed(disk, p)]
  }

  /** Every history holds at most `cap` snapshots. */
  predicate Bounded(histories: map<Path, seq<string>>, cap: nat)
  {
    cap >= 1 && forall p :: p in histories ==> |histories[p]| <= cap
  }

  /**
   * What handling `event`, with `read` the result of reading its file, does to the histories,
   * and the change it reports, if any.
   */
  function Handle(histories: map<Path, seq<string>>, cap: nat, event: Event, read: ReadResult): (r: (map<Path, seq<string>>, Option<Change>))
    requires Bounded(histories, cap)
    ensures Bounded(r.0, cap) && r.0.Keys == histories.Keys
    ensures r.1.None? ==> r.0 == histories
    ensures r.1.Some? ==> !event.isDirectory && event.srcPath in histories
                          && r.1.value.path == event.srcPath && r.1.value.before != r.1.value.after
                          && r.0[event.srcPath] == BoundedAppend(histories[event.srcPath], r.1.value.after, cap)
  {
    var p := event.srcPath;
    if event.isDirectory || p !in histories then (histories, None)
    else
      var before := Baseline(histories[p]);
      var after := Observed(read);
      if after != before then (histories[p := BoundedAppend(histories[p], after, cap)], Some(Change(p, before, after)))
      else (histories, None)
  }

  /** Directory events and events about untracked paths change nothing and report nothing. */
  lemma HandleIgnores(histories: map<Path, seq<string>>, cap: nat, event: Event, read: ReadResult)
    requires Bounded(histories, cap)
    requires event.isDirectory || event.srcPath !in histories
    ensures Handle(histories, cap, event, read) == (histories, None)
  {
  }

  /**
   * For a tracked file, a change is reported exactly when the content read differs from the
   * newest snapshot; then that content becomes the newest snapshot, the history stays bounded,
   * and no other file's history moves. Otherwise nothing changes.
   */
  lemma HandleTracked(histories: map<Path, seq<string>>, cap: nat, event: Event, read: ReadResult)
    requires Bounded(histories, cap)
    requires !event.isDirectory && event.srcPath in histories
    ensures var (after, change) := Handle(histories, cap, event, read);
            var p := event.srcPath;
            && Bounded(after, cap)
            && after.Keys == histories.Keys
            && (forall q :: q in histories && q != p ==> after[q] == histories[q])
            && (change.Some? <==> Observed(read) != Baseline(histories[p]))
            && (change.Some? ==> change == Some(Change(p, Baseline(histories[p]), Observed(read)))
                                 && Baseline(after[p]) == Observed(read)
                                 && |after[p]| == (if |histories[p]| < cap then |histories[p]| + 1 else cap)
                                 && after[p] == (histories[p] + [Observed(read)])[|histories[p]| + 1 - |after[p]|..])
            && (change.None? ==> after == histories)
  {
  }

  /** Handling the same event with the same read a second time is a no-op. */
  lemma HandleRepeat(histories: map<Path, seq<string>>, cap: nat, event: Event, read: ReadResult)
    requires Bounded(histories, cap)
    ensures var (once, _) := Handle(histories, cap, event, read);
            Bounded(once, cap) && Handle(once, cap, event, read) == (once, None)
  {
    if !event.isDirectory && event.srcPath in histories {
      HandleTracked(histories, cap, event, read);
    }
  }

  class FolderWatcher {
    /** The snapshot history of every tracked file, keyed by resolved path. */
    var histories: map<Path, seq<string>>
    /** How many snapshots a history keeps: the `history` setting plus the current one. */
    const capacity: nat

    ghost predicate Valid()
      reads this
    {
      Bounded(histories, capacity)
    }

    /**
     * Tracks `files`, keeping `history` earlier snapshots besides the current one. `disk` holds
     * the files that exist at startup, with their text.
     */
    constructor (files: seq<Path>, history: nat, disk: map<Path, string>)
      ensures Valid() && capacity == history + 1
      ensures histories.Keys == set f | f in files
      ensures SeededFrom(histories, disk)
    {
      var tracked: map<Path, seq<string>> := map f | f in files :: [];
      var pending := tracked.Keys;
      while pending != {}
        invariant tracked.Keys == set f | f in files
        invariant forall p :: p in pending ==> p in tracked && tracked[p] == []
        invariant forall p :: p in tracked && p !in pending ==> tracked[p] == [Seed(disk, p)]
        decreases pending
      {
        var p :| p in pending;
        tracked := tracked[p := BoundedAppend(tracked[p], Seed(disk, p), history + 1)];
        pending := pending - {p};
      }
      histories := tracked;
      capacity := history + 1;
    }

    /**
     * Handles a "modified" or "created" event; `read` is the result of reading the event's
     * file, consulted only when the file is tracked.
     */
    method HandleEvent(event: Event, read: ReadResult) returns (change: Option<Change>)
      requires Valid()
      modifies this
      ensures Valid()
      ensures (histories, change) == Handle(old(histories), capacity, event, read)
    {
      if event.isDirectory {
        return None;
      }
      var path := event.srcPath;
      if path !in histories {
        return None;
      }
      var before := if histories[path] != [] then histories[path][|histories[path]| - 1] else "";
      var after := match read case Ok(text) => text case Err(message) => "[error reading file: " + message + "]";
      change := None;
      if after != before {
        histories := histories[path := BoundedAppend(histories[path], after, capacity)];
        change := Some(Change(path, before, after));
      }
    }
  }
}
