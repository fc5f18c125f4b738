/** Scenarios of the diff view: small examples, proved for arbitrary lines. */
module DiffScenarios {
  import opened Lines
  import opened Columns
  import TrimDiff

  /** Three lines, the last one not empty, split back into those three lines. */
  lemma ThreeLines(a: string, b: string, c: string)
    requires IsLine(a) && IsLine(b) && IsLine(c) && c != ""
    ensures SplitLines(a + "\n" + b + "\n" + c) == [a, b, c]
  {
    assert [a, b, c][1..] == [b, c] && [b, c][1..] == [c];
    assert Join([c]) == c;
    assert Join([b, c]) == b + "\n" + c;
    assert Join([a, b, c]) == a + "\n" + (b + "\n" + c);
    assert a + "\n" + (b + "\n" + c) == a + "\n" + b + "\n" + c;
    SplitLinesOfJoin([a, b, c]);
  }

  /** Lists that differ only in their middle line share the first and the last line. */
  lemma {:induction false} MiddlePieces(a: string, b: string, x: string, c: string)
    requires b != x
    ensures TrimDiff.Pieces([a, b, c], [a, x, c]) == ([a], [b], [x], [c])
  {
    var s, t := [a, b, c], [a, x, c];
    assert s[1..] == [b, c] && t[1..] == [x, c];
    assert TrimDiff.CommonPrefix(s, t) == 1 by {
      assert TrimDiff.CommonPrefix(s[1..], t[1..]) == 0;
    }
    assert TrimDiff.CommonSuffix([b, c], [x, c]) == 1 by {
      assert [b, c][..1] == [b] && [x, c][..1] == [x];
      assert TrimDiff.CommonSuffix([b], [x]) == 0;
    }
    assert s[..1] == [a] && s[1..2] == [b] && t[1..2] == [x] && s[2..] == [c];
  }

  /** Replacing the middle of three lines: one context, one removed, one added, one context line. */
  lemma ReplaceMiddleLine(a: string, b: string, x: string, c: string)
    requires b != x
    ensures TrimDiff.Diff([a, b, c], [a, x, c]) == [ContextCode + a, RemovedCode + b, AddedCode + x, ContextCode + c]
  {
    MiddlePieces(a, b, x, c);
  }

  /** The Before column of the middle-line replacement. */
  lemma ReplaceMiddleBefore(a: string, b: string, x: string, c: string)
    ensures LeftColumn([ContextCode + a, RemovedCode + b, AddedCode + x, ContextCode + c])
            == [ContextCode + a, RemovedCode + b, ContextCode + c]
  {
    ContextGoesBoth(a);
    RemovedGoesLeft(b);
    AddedGoesRight(x);
    ContextGoesBoth(c);
    var l0, l1, l2, l3 := ContextCode + a, RemovedCode + b, AddedCode + x, ContextCode + c;
    var d1 := [l0];
    var d2 := d1 + [l1];
    var d3 := d2 + [l2];
    assert [] + [l0] == d1;
    ColumnsSnoc([], l0);
    ColumnsSnoc(d1, l1);
    ColumnsSnoc(d2, l2);
    ColumnsSnoc(d3, l3);
    assert d3 + [l3] == [l0, l1, l2, l3];
  }

  /** The After column of the middle-line replacement. */
  lemma ReplaceMiddleAfter(a: string, b: string, x: string, c: string)
    ensures RightColumn([ContextCode + a, RemovedCode + b, AddedCode + x, ContextCode + c])
            == [ContextCode + a, AddedCode + x, ContextCode + c]
  {
    ContextGoesBoth(a);
    RemovedGoesLeft(b);
    AddedGoesRight(x);
    ContextGoesBoth(c);
    var l0, l1, l2, l3 := ContextCode + a, RemovedCode + b, AddedCode + x, ContextCode + c;
    var d1 := [l0];
    var d2 := d1 + [l1];
    var d3 := d2 + [l2];
    assert [] + [l0] == d1;
    ColumnsSnoc([], l0);
    ColumnsSnoc(d1, l1);
    ColumnsSnoc(d2, l2);
    ColumnsSnoc(d3, l3);
    assert d3 + [l3] == [l0, l1, l2, l3];
  }

  /** Its Before column holds the kept lines and the removed one, its After column the kept lines and the added one. */
  lemma ReplaceMiddleColumns(a: string, b: string, x: string, c: string)
    ensures var d := [ContextCode + a, RemovedCode + b, AddedCode + x, ContextCode + c];
            && LeftColumn(d) == [ContextCode + a, RemovedCode + b, ContextCode + c]
            && RightColumn(d) == [ContextCode + a, AddedCode + x, ContextCode + c]
  {
    ReplaceMiddleBefore(a, b, x, c);
    ReplaceMiddleAfter(a, b, x, c);
  }

  /** The diff from no lines to one line adds that line. */
  lemma OneLineAdded(line: string)
    ensures TrimDiff.Diff([], [line]) == [AddedCode + line]
  {
    var none: seq<string> := [];
    assert TrimDiff.CommonPrefix(none, [line]) == 0;
    assert none[0..] == none && [line][0..] == [line];
    assert TrimDiff.CommonSuffix(none, [line]) == 0;
    assert none[..0] == none && none[0..0] == none && [line][0..1] == [line] && none[0..] == none;
    assert TrimDiff.Pieces(none, [line]) == (none, none, [line], none);
    assert TrimDiff.Mark(ContextCode, none) == none && TrimDiff.Mark(RemovedCode, none) == none;
    assert [line][..0] == none;
    assert TrimDiff.Mark(AddedCode, [line]) == [AddedCode + line];
    assert none + none + [AddedCode + line] + none == [AddedCode + line];
  }

  /** A file that was missing and is created with one line shows exactly that line, added. */
  lemma CreatedFile(line: string)
    requires IsLine(line) && line != ""
    ensures TrimDiff.Diff(SplitLines(""), SplitLines(line)) == [AddedCode + line]
    ensures LeftColumn([AddedCode + line]) == [] && RightColumn([AddedCode + line]) == [AddedCode + line]
  {
    SplitLinesOfJoin([line]);
    OneLineAdded(line);
    AddedGoesRight(line);
    ColumnsSnoc([], AddedCode + line);
    assert [] + [AddedCode + line] == [AddedCode + line];
  }
}
