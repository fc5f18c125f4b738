/**
 * The start-up step that groups the tracked files by the folder holding them, so that one
 * watcher, registered on that folder, serves all of the folder's files.
 */
module Grouping {
  import opened Paths
  import opened Watcher

  /** The files of `files` whose folder is `dir`, in their order in `files`. */
  function Members(files: seq<Path>, dir: Path): seq<Path>
  {
    if files == [] then []
    else
      var f := files[|files| - 1];
      Members(files[..|files| - 1], dir) + (if Parent(f) == dir then [f] else [])
  }

  /** The folders holding the files. */
  function Folders(files: seq<Path>): set<Path>
  {
    set f | f in files :: Parent(f)
  }

  /** Builds the folder map: each folder with the files in it, in input order. */
  method GroupByParent(files: seq<Path>) returns (groups: map<Path, seq<Path>>)
    ensures groups.Keys == Folders(files)
    ensures forall d :: d in groups ==> groups[d] == Members(files, d)
  {
    groups := map[];
    for i := 0 to |files|
      invariant groups.Keys == Folders(files[..i])
      invariant forall d :: d in groups ==> groups[d] == Members(files[..i], d)
    {
      var f := files[i];
      var dir := Parent(f);
      assert files[..i + 1] == files[..i] + [f];
      GroupInsert(groups, files[..i], f);
      var members := if dir in groups then groups[dir] else [];
      groups := groups[dir := members + [f]];
    }
    assert files[..|files|] == files;
  }

  /** Appending a file to its folder's group turns the grouping of `seen` into that of `seen + [f]`. */
  lemma GroupInsert(groups: map<Path, seq<Path>>, seen: seq<Path>, f: Path)
    requires groups.Keys == Folders(seen)
    requires forall d :: d in groups ==> groups[d] == Members(seen, d)
    ensures var dir := Parent(f);
            var grown := groups[dir := (if dir in groups then groups[dir] else []) + [f]];
            && grown.Keys == Folders(seen + [f])
            && forall d :: d in grown ==> grown[d] == Members(seen + [f], d)
  {
    GroupStep(seen, f);
  }

  /** What one more file does to the folders and to each folder's members. */
  lemma GroupStep(files: seq<Path>, f: Path)
    ensures Folders(files + [f]) == Folders(files) + {Parent(f)}
    ensures forall d :: Members(files + [f], d) == Members(files, d) + (if Parent(f) == d then [f] else [])
    ensures Parent(f) !in Folders(files) ==> Members(files, Parent(f)) == []
  {
    assert (files + [f])[..|files|] == files;
    if Parent(f) !in Folders(files) {
      MembersOutside(files, Parent(f));
    }
  }

  /** A folder that holds none of the files has no members. */
  lemma {:induction false} MembersOutside(files: seq<Path>, dir: Path)
    requires dir !in Folders(files)
    ensures Members(files, dir) == []
  {
    if files != [] {
      var init := files[..|files| - 1];
      assert Folders(init) <= Folders(files);
      MembersOutside(init, dir);
    }
  }

  /**
   * Every member of a group is one of the files and lies in that group's folder, and each
   * file occurs in its folder's group exactly as often as in the input.
   */
  lemma {:induction false} MembersPartition(files: seq<Path>, dir: Path)
    ensures forall g :: g in Members(files, dir) ==> g in files && Parent(g) == dir
    ensures forall f :: multiset(Members(files, dir))[f] == if Parent(f) == dir then multiset(files)[f] else 0
  {
    if files != [] {
      var init, last := files[..|files| - 1], files[|files| - 1];
      MembersPartition(init, dir);
      assert files == init + [last];
    }
  }

  /** Grouping keeps the input order: the members from a prefix come before those from the rest. */
  lemma {:induction false} MembersSplit(xs: seq<Path>, ys: seq<Path>, dir: Path)
    ensures Members(xs + ys, dir) == Members(xs, dir) + Members(ys, dir)
    decreases |ys|
  {
    if ys == [] {
      assert xs + ys == xs;
    } else {
      var init := ys[..|ys| - 1];
      assert (xs + ys)[..|xs + ys| - 1] == xs + init;
      MembersSplit(xs, init, dir);
    }
  }

  /** Every file is a member of its own folder's group. */
  lemma {:induction false} MemberOfParent(files: seq<Path>, f: Path)
    requires f in files
    ensures f in Members(files, Parent(f))
  {
    var init := files[..|files| - 1];
    if f != files[|files| - 1] {
      assert files == init + [files[|files| - 1]];
      MemberOfParent(init, f);
    }
  }

  /** A member of a group lies in that group's folder. */
  lemma {:induction false} MemberInFolder(files: seq<Path>, dir: Path, g: Path)
    requires g in Members(files, dir)
    ensures Parent(g) == dir
  {
    var init := files[..|files| - 1];
    if g !in Members(init, dir) {
      assert g in (if Parent(files[|files| - 1]) == dir then [files[|files| - 1]] else []);
    } else {
      MemberInFolder(init, dir, g);
    }
  }

  /** Two different folders of the files have different members: `x` is in the first group only. */
  lemma GroupsDiffer(files: seq<Path>, d: Path, e: Path) returns (x: Path)
    requires d in Folders(files) && d != e
    ensures x in Members(files, d) && x !in Members(files, e)
  {
    x :| x in files && Parent(x) == d;
    MemberOfParent(files, x);
    if x in Members(files, e) {
      MemberInFolder(files, e, x);
    }
  }

  /**
   * `w` is a freshly started watcher for `files`: it tracks exactly those files, each with the
   * snapshot it starts with, and keeps at most two snapshots per file (the default history of 1).
   */
  ghost predicate StartedFor(w: FolderWatcher, files: seq<Path>, disk: map<Path, string>)
    reads w
  {
    && w.Valid() && w.capacity == 2
    && w.histories.Keys == (set f | f in files)
    && SeededFrom(w.histories, disk)
  }

  /** Starts the watcher for one folder's files, as `main` does with the default history. */
  method StartWatcher(files: seq<Path>, disk: map<Path, string>) returns (w: FolderWatcher)
    ensures fresh(w) && StartedFor(w, files, disk)
  {
    w := new FolderWatcher(files, 1, disk);
  }

  /** One watcher per folder, each tracking exactly that folder's files, with the default history of 1. */
  method StartWatchers(files: seq<Path>, disk: map<Path, string>) returns (watchers: map<Path, FolderWatcher>)
    ensures watchers.Keys == Folders(files)
    ensures forall d :: d in watchers ==> fresh(watchers[d]) && StartedFor(watchers[d], Members(files, d), disk)
    ensures forall d, e :: d in watchers && e in watchers && d != e ==> watchers[d] != watchers[e]
  {
    var groups := GroupByParent(files);
    watchers := map[];
    var pending := groups.Keys;
    while pending != {}
      invariant pending <= groups.Keys
      invariant watchers.Keys == groups.Keys - pending
      invariant forall d :: d in watchers ==> fresh(watchers[d]) && StartedFor(watchers[d], Members(files, d), disk)
      decreases pending
    {
      var dir :| dir in pending;
      var w := StartWatcher(groups[dir], disk);
      watchers := watchers[dir := w];
      pending := pending - {dir};
    }
    forall d, e | d in watchers && e in watchers && d != e
      ensures watchers[d] != watchers[e]
    {
      var x := GroupsDiffer(files, d, e);
      assert x in watchers[d].histories && x !in watchers[e].histories;
    }
  }
}
