/** Scenarios of the folder watcher: short event sequences, proved for arbitrary file names and contents. */
module WatcherScenarios {
  import opened Results
  import opened Paths
  import opened History
  import opened Watcher

  /** A watcher on the single file `conf`, with the default history of 1. */
  method WatchOne(conf: Path, disk: map<Path, string>) returns (w: FolderWatcher)
    ensures fresh(w) && w.Valid() && w.capacity == 2
    ensures w.histories == map[conf := [Seed(disk, conf)]]
  {
    w := new FolderWatcher([conf], 1, disk);
    assert w.histories.Keys == {conf};
  }

  /** Writing text into a file whose only snapshot is empty is one change, and writing it again is none. */
  lemma WriteIntoEmpty(histories: map<Path, seq<string>>, conf: Path, text: string)
    requires Bounded(histories, 2) && conf in histories && histories[conf] == [""] && text != ""
    ensures var (once, change) := Handle(histories, 2, Event(false, conf), Ok(text));
            && change == Some(Change(conf, "", text))
            && conf in once && once[conf] == ["", text]
            && Bounded(once, 2)
            && Handle(once, 2, Event(false, conf), Ok(text)) == (once, None)
  {
    var ev := Event(false, conf);
    assert Baseline(histories[conf]) == "";
    assert Observed(Ok(text)) == text;
    assert BoundedAppend([""], text, 2) == ["", text];
    assert Handle(histories, 2, ev, Ok(text)) == (histories[conf := ["", text]], Some(Change(conf, "", text)));
    HandleRepeat(histories, 2, Event(false, conf), Ok(text));
  }

  /** A file missing at startup is created, then written again with the same text. */
  method CreatedThenRewritten(conf: Path, text: string)
    returns (created: Option<Change>, same: Option<Change>, kept: seq<string>)
    requires text != ""
    ensures created == Some(Change(conf, "", text))
    ensures same == None
    ensures kept == ["", text]
  {
    var w := WatchOne(conf, map[]);
    var ev := Event(false, conf);
    assert w.histories[conf] == [""];
    WriteIntoEmpty(w.histories, conf, text);
    created := w.HandleEvent(ev, Ok(text));
    ghost var once := w.histories;
    assert Handle(once, w.capacity, ev, Ok(text)) == (once, None);
    same := w.HandleEvent(ev, Ok(text));
    assert w.histories == once;
    kept := w.histories[conf];
  }

  /**
   * Two files share a folder: a change to one is reported for that file only, the other
   * keeps its history, and an event about the folder itself is ignored.
   */
  method NeighbourUntouched(conf: Path, other: Path, dir: Path, text: string, neighbourText: string)
    returns (created: Option<Change>, ignored: Option<Change>, neighbour: seq<string>)
    requires conf != other && text != ""
    ensures created == Some(Change(conf, "", text))
    ensures ignored == None
    ensures neighbour == [neighbourText]
  {
    var disk := map[other := neighbourText];
    assert Seed(disk, conf) == "" && Seed(disk, other) == neighbourText;
    var w := new FolderWatcher([conf, other], 1, disk);
    assert conf in w.histories && other in w.histories;
    assert w.histories[conf] == [""] && w.histories[other] == [neighbourText];
    created := w.HandleEvent(Event(false, conf), Ok(text));
    ignored := w.HandleEvent(Event(true, dir), Ok(text + text));
    neighbour := w.histories[other];
  }

  /**
   * A two-snapshot history [text] that fails to read and then reads `final`: two changes,
   * into and out of the error placeholder, leaving [placeholder, final].
   */
  lemma FailThenRecover(histories: map<Path, seq<string>>, conf: Path, text: string, message: string, final: string)
    requires Bounded(histories, 2) && conf in histories && histories[conf] == [text]
    requires Observed(Err(message)) != text && final != Observed(Err(message))
    ensures var err := Observed(Err(message));
            var (broken, failed) := Handle(histories, 2, Event(false, conf), Err(message));
            && failed == Some(Change(conf, text, err))
            && Bounded(broken, 2) && conf in broken && broken[conf] == [text, err]
            && Handle(broken, 2, Event(false, conf), Ok(final))
               == (broken[conf := [err, final]], Some(Change(conf, err, final)))
  {
    var err := Observed(Err(message));
    var ev := Event(false, conf);
    assert Baseline([text]) == text;
    assert BoundedAppend([text], err, 2) == [text, err];
    var broken := histories[conf := [text, err]];
    assert Handle(histories, 2, ev, Err(message)) == (broken, Some(Change(conf, text, err)));
    assert Baseline([text, err]) == err;
    assert Observed(Ok(final)) == final;
    assert BoundedAppend([text, err], final, 2) == [err, final];
  }

  /**
   * A tracked file becomes unreadable and is then rewritten: two changes, into and out of the
   * error placeholder. With the default history of 1, only the last two snapshots remain.
   */
  method FailureThenRecovery(conf: Path, text: string, message: string, final: string)
    returns (failed: Option<Change>, recovered: Option<Change>, kept: seq<string>)
    requires Observed(Err(message)) != text && final != Observed(Err(message))
    ensures failed == Some(Change(conf, text, Observed(Err(message))))
    ensures recovered == Some(Change(conf, Observed(Err(message)), final))
    ensures kept == [Observed(Err(message)), final]
  {
    var ev := Event(false, conf);
    ghost var err := Observed(Err(message));
    var w := WatchOne(conf, map[conf := text]);
    ghost var start := w.histories;
    assert start[conf] == [text];
    FailThenRecover(start, conf, text, message, final);
    failed := w.HandleEvent(ev, Err(message));
    ghost var broken := w.histories;
    assert broken == Handle(start, 2, ev, Err(message)).0;
    recovered := w.HandleEvent(ev, Ok(final));
    assert w.histories == broken[conf := [err, final]];
    kept := w.histories[conf];
  }
}
