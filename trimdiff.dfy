/**
 * A simple line diff meeting ndiff's contract: the common leading and trailing lines are
 * context, the old middle lines are removed and the new middle lines added. It stands in
 * for `difflib.ndiff` when a concrete script is wanted; it does not reproduce ndiff's own
 * choice of alignment or its hint lines.
 */
module TrimDiff {
  import opened Lines
  import opened Columns

  /** Each line prefixed with the tag `code`, in order. */
  function Mark(code: string, lines: seq<string>): (r: seq<string>)
    ensures |r| == |lines|
  {
    if lines == [] then [] else Mark(code, lines[..|lines| - 1]) + [code + lines[|lines| - 1]]
  }

  /** The `i`-th marked line is the `i`-th line behind the tag. */
  lemma {:induction false} MarkAt(code: string, lines: seq<string>, i: nat)
    requires i < |lines|
    ensures Mark(code, lines)[i] == code + lines[i]
  {
    if i < |lines| - 1 {
      MarkAt(code, lines[..|lines| - 1], i);
    }
  }

  /** The number of leading lines `a` and `b` share. */
  function CommonPrefix(a: seq<string>, b: seq<string>): (p: nat)
    ensures p <= |a| && p <= |b| && a[..p] == b[..p]
    ensures p < |a| && p < |b| ==> a[p] != b[p]
  {
    if a == [] || b == [] || a[0] != b[0] then 0
    else
      var p := CommonPrefix(a[1..], b[1..]);
      assert a[..p + 1] == [a[0]] + a[1..][..p];
      assert b[..p + 1] == [b[0]] + b[1..][..p];
      p + 1
  }

  /** The number of trailing lines `a` and `b` share. */
  function CommonSuffix(a: seq<string>, b: seq<string>): (s: nat)
    ensures s <= |a| && s <= |b| && a[|a| - s..] == b[|b| - s..]
  {
    if a == [] || b == [] || a[|a| - 1] != b[|b| - 1] then 0
    else
      var a', b' := a[..|a| - 1], b[..|b| - 1];
      var s := CommonSuffix(a', b');
      assert a[|a| - (s + 1)..] == a'[|a'| - s..] + [a[|a| - 1]];
      assert b[|b| - (s + 1)..] == b'[|b'| - s..] + [b[|b| - 1]];
      s + 1
  }

  /**
   * The lines `a` and `b` share at the front, the lines only `a` has in the middle,
   * the lines only `b` has in the middle, and the lines they share at the back.
   */
  function Pieces(a: seq<string>, b: seq<string>): (seq<string>, seq<string>, seq<string>, seq<string>)
  {
    var p := CommonPrefix(a, b);
    var s := CommonSuffix(a[p..], b[p..]);
    (a[..p], a[p..|a| - s], b[p..|b| - s], a[|a| - s..])
  }

  /** The diff of two line sequences. */
  function Diff(a: seq<string>, b: seq<string>): seq<string>
  {
    var (head, gone, came, tail) := Pieces(a, b);
    Mark(ContextCode, head) + Mark(RemovedCode, gone) + Mark(AddedCode, came) + Mark(ContextCode, tail)
  }

  lemma {:induction false} KeepAppend(x: seq<string>, y: seq<string>, code: string)
    ensures Keep(x + y, code) == Keep(x, code) + Keep(y, code)
    decreases |y|
  {
    if y != [] {
      var y', last := y[..|y| - 1], y[|y| - 1];
      assert (x + y)[..|x + y| - 1] == x + y';
      assert (x + y)[|x + y| - 1] == last;
      KeepAppend(x, y', code);
    } else {
      assert x + y == x;
    }
  }

  lemma {:induction false} StripAppend(x: seq<string>, y: seq<string>)
    ensures Strip(x + y) == Strip(x) + Strip(y)
    decreases |y|
  {
    if y != [] {
      var y', last := y[..|y| - 1], y[|y| - 1];
      assert (x + y)[..|x + y| - 1] == x + y';
      assert (x + y)[|x + y| - 1] == last;
      StripAppend(x, y');
    } else {
      assert x + y == x;
    }
  }

  lemma RestoreAppend(x: seq<string>, y: seq<string>, code: string)
    ensures Restore(x + y, code) == Restore(x, code) + Restore(y, code)
  {
    KeepAppend(x, y, code);
    StripAppend(Keep(x, code), Keep(y, code));
  }

  /** Marked lines are all kept when their tag is context or `code`, and all dropped otherwise. */
  lemma {:induction false} KeepMark(tag: string, lines: seq<string>, code: string)
    requires |tag| == 2
    ensures Keep(Mark(tag, lines), code) == if tag == ContextCode || tag == code then Mark(tag, lines) else []
  {
    if lines != [] {
      var m := Mark(tag, lines);
      assert m[..|m| - 1] == Mark(tag, lines[..|lines| - 1]);
      KeepMark(tag, lines[..|lines| - 1], code);
      TagRoundTrip(tag, lines[|lines| - 1]);
    }
  }

  lemma {:induction false} StripMark(tag: string, lines: seq<string>)
    requires |tag| == 2
    ensures Strip(Mark(tag, lines)) == lines
  {
    if lines != [] {
      var m := Mark(tag, lines);
      assert m[..|m| - 1] == Mark(tag, lines[..|lines| - 1]);
      StripMark(tag, lines[..|lines| - 1]);
      TagRoundTrip(tag, lines[|lines| - 1]);
    }
  }

  /** Restoring marked lines gives them back when their tag is context or `code`. */
  lemma RestoreKept(tag: string, lines: seq<string>, code: string)
    requires |tag| == 2 && (tag == ContextCode || tag == code)
    ensures Restore(Mark(tag, lines), code) == lines
  {
    KeepMark(tag, lines, code);
    StripMark(tag, lines);
  }

  /** Restoring lines marked with any other tag gives nothing. */
  lemma RestoreDropped(tag: string, lines: seq<string>, code: string)
    requires |tag| == 2 && tag != ContextCode && tag != code
    ensures Restore(Mark(tag, lines), code) == []
  {
    KeepMark(tag, lines, code);
  }

  lemma RestoreFour(m1: seq<string>, m2: seq<string>, m3: seq<string>, m4: seq<string>, code: string)
    ensures Restore(m1 + m2 + m3 + m4, code) == Restore(m1, code) + Restore(m2, code) + Restore(m3, code) + Restore(m4, code)
  {
    RestoreAppend(m1 + m2 + m3, m4, code);
    RestoreAppend(m1 + m2, m3, code);
    RestoreAppend(m1, m2, code);
  }

  lemma MarkWellFormed(tag: string, lines: seq<string>)
    requires tag in {ContextCode, RemovedCode, AddedCode}
    ensures WellFormed(Mark(tag, lines))
  {
    forall i | 0 <= i < |lines| ensures |Mark(tag, lines)[i]| >= 2 && Code(Mark(tag, lines)[i]) == tag {
      MarkAt(tag, lines, i);
      TagRoundTrip(tag, lines[i]);
    }
  }

  /**
   * Cutting `a` and `b` after a shared prefix of length `p` and before a shared suffix of
   * length `s` tiles each of them.
   */
  lemma TrimTile(a: seq<string>, b: seq<string>, p: nat, s: nat)
    requires p + s <= |a| && p + s <= |b| && a[..p] == b[..p]
    requires a[p..][|a| - p - s..] == b[p..][|b| - p - s..]
    ensures a == a[..p] + a[p..|a| - s] + a[|a| - s..]
    ensures b == a[..p] + b[p..|b| - s] + a[|a| - s..]
  {
    assert a[p..][|a| - p - s..] == a[|a| - s..];
    assert b[p..][|b| - p - s..] == b[|b| - s..];
    assert b == b[..p] + b[p..|b| - s] + b[|b| - s..];
  }

  /** The pieces tile both sequences. */
  lemma PiecesTile(a: seq<string>, b: seq<string>)
    ensures var (head, gone, came, tail) := Pieces(a, b);
            a == head + gone + tail && b == head + came + tail
  {
    var p := CommonPrefix(a, b);
    TrimTile(a, b, p, CommonSuffix(a[p..], b[p..]));
  }

  /** Every line of a trimmed diff carries a context, removed or added tag. */
  lemma DiffWellFormed(head: seq<string>, gone: seq<string>, came: seq<string>, tail: seq<string>)
    ensures WellFormed(Mark(ContextCode, head) + Mark(RemovedCode, gone) + Mark(AddedCode, came) + Mark(ContextCode, tail))
  {
    var m1, m2, m3, m4 := Mark(ContextCode, head), Mark(RemovedCode, gone), Mark(AddedCode, came), Mark(ContextCode, tail);
    MarkWellFormed(ContextCode, head);
    MarkWellFormed(RemovedCode, gone);
    MarkWellFormed(AddedCode, came);
    MarkWellFormed(ContextCode, tail);
    assert WellFormed(m1 + m2);
    assert WellFormed(m1 + m2 + m3);
  }

  /** The diff is well formed and restores `a` on its "- " side and `b` on its "+ " side. */
  lemma DiffRestores(a: seq<string>, b: seq<string>)
    ensures WellFormed(Diff(a, b))
    ensures Restore(Diff(a, b), RemovedCode) == a
    ensures Restore(Diff(a, b), AddedCode) == b
  {
    var (head, gone, came, tail) := Pieces(a, b);
    PiecesTile(a, b);
    DiffWellFormed(head, gone, came, tail);
    DiffOldSide(head, gone, came, tail);
    DiffNewSide(head, gone, came, tail);
  }

  /** Restoring four concatenated pieces, of which the third restores to nothing. */
  lemma RestoreOfFourButThird(m1: seq<string>, m2: seq<string>, m3: seq<string>, m4: seq<string>, code: string,
                              x1: seq<string>, x2: seq<string>, x4: seq<string>)
    requires Restore(m1, code) == x1 && Restore(m2, code) == x2 && Restore(m3, code) == [] && Restore(m4, code) == x4
    ensures Restore(m1 + m2 + m3 + m4, code) == x1 + x2 + x4
  {
    RestoreFour(m1, m2, m3, m4, code);
    assert x1 + x2 + [] + x4 == x1 + x2 + x4;
  }

  /** Restoring four concatenated pieces, of which the second restores to nothing. */
  lemma RestoreOfFourButSecond(m1: seq<string>, m2: seq<string>, m3: seq<string>, m4: seq<string>, code: string,
                               x1: seq<string>, x3: seq<string>, x4: seq<string>)
    requires Restore(m1, code) == x1 && Restore(m2, code) == [] && Restore(m3, code) == x3 && Restore(m4, code) == x4
    ensures Restore(m1 + m2 + m3 + m4, code) == x1 + x3 + x4
  {
    RestoreFour(m1, m2, m3, m4, code);
    assert x1 + [] + x3 + x4 == x1 + x3 + x4;
  }

  /** The "- " side of a trimmed diff is the old lines. */
  lemma DiffOldSide(head: seq<string>, gone: seq<string>, came: seq<string>, tail: seq<string>)
    ensures Restore(Mark(ContextCode, head) + Mark(RemovedCode, gone) + Mark(AddedCode, came) + Mark(ContextCode, tail), RemovedCode)
            == head + gone + tail
  {
    var m1, m2, m3, m4 := Mark(ContextCode, head), Mark(RemovedCode, gone), Mark(AddedCode, came), Mark(ContextCode, tail);
    assert Restore(m1, RemovedCode) == head by { RestoreKept(ContextCode, head, RemovedCode); }
    assert Restore(m2, RemovedCode) == gone by { RestoreKept(RemovedCode, gone, RemovedCode); }
    assert Restore(m3, RemovedCode) == [] by { CodesDiffer(); RestoreDropped(AddedCode, came, RemovedCode); }
    assert Restore(m4, RemovedCode) == tail by { RestoreKept(ContextCode, tail, RemovedCode); }
    RestoreOfFourButThird(m1, m2, m3, m4, RemovedCode, head, gone, tail);
  }

  /** The "+ " side of a trimmed diff is the new lines. */
  lemma DiffNewSide(head: seq<string>, gone: seq<string>, came: seq<string>, tail: seq<string>)
    ensures Restore(Mark(ContextCode, head) + Mark(RemovedCode, gone) + Mark(AddedCode, came) + Mark(ContextCode, tail), AddedCode)
            == head + came + tail
  {
    var m1, m2, m3, m4 := Mark(ContextCode, head), Mark(RemovedCode, gone), Mark(AddedCode, came), Mark(ContextCode, tail);
    assert Restore(m1, AddedCode) == head by { RestoreKept(ContextCode, head, AddedCode); }
    assert Restore(m2, AddedCode) == [] by { CodesDiffer(); RestoreDropped(RemovedCode, gone, AddedCode); }
    assert Restore(m3, AddedCode) == came by { RestoreKept(AddedCode, came, AddedCode); }
    assert Restore(m4, AddedCode) == tail by { RestoreKept(ContextCode, tail, AddedCode); }
    RestoreOfFourButSecond(m1, m2, m3, m4, AddedCode, head, came, tail);
  }

  /** Every pair of texts has a script meeting ndiff's contract. */
  lemma ScriptExists(before: string, after: string)
    ensures ScriptFor(Diff(SplitLines(before), SplitLines(after)), before, after)
  {
    DiffRestores(SplitLines(before), SplitLines(after));
  }

  /** Equal sequences share everything at the front: all context, nothing in the middle. */
  lemma PiecesOfEqual(a: seq<string>)
    ensures Pieces(a, a) == (a, [], [], [])
  {
    var p := CommonPrefix(a, a);
    assert p == |a|;
    assert a[..p] == a && a[p..] == [];
    var s := CommonSuffix(a[p..], a[p..]);
    assert s == 0;
    assert a[p..|a| - s] == [] && a[|a| - s..] == [];
  }

  /** Equal line sequences give context lines only: no removed and no added line. */
  lemma DiffOfEqual(a: seq<string>)
    ensures Diff(a, a) == Mark(ContextCode, a)
    ensures forall i :: 0 <= i < |Diff(a, a)| ==> Code(Diff(a, a)[i]) == ContextCode
  {
    PiecesOfEqual(a);
    var m := Mark(ContextCode, a);
    assert Mark(RemovedCode, []) == [] && Mark(AddedCode, []) == [] && Mark(ContextCode, []) == [];
    assert Diff(a, a) == m + [] + [] + [];
    assert m + [] + [] + [] == m;
    forall i | 0 <= i < |a| ensures Code(m[i]) == ContextCode {
      MarkAt(ContextCode, a, i);
      TagRoundTrip(ContextCode, a[i]);
    }
  }
}
