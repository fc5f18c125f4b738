/**
 * The Before/After columns of the tracker's diff view.
 *
 * `difflib.ndiff` yields one tagged line per line of its output: "  " (in both texts),
 * "- " (only in the old text), "+ " (only in the new text) or "? " (an intraline hint,
 * in neither). The tagged lines are taken here as input; `Classify` sorts them into the
 * two columns, and the lemmas show that the columns spell the old and the new text.
 */
module Columns {
  import opened Lines

  const ContextCode: string := "  "
  const RemovedCode: string := "- "
  const AddedCode: string := "+ "
  const HintCode: string := "? "

  /** The tag of a diff line: its first two characters (the whole line when shorter). */
  function Code(line: string): string
  {
    if |line| >= 2 then line[..2] else line
  }

  /** The text of a diff line after its tag ("" when the line is shorter than a tag). */
  function Text(line: string): string
  {
    if |line| >= 2 then line[2..] else []
  }

  /** What one diff line adds to the Before column. */
  function LeftOf(line: string): seq<string>
  {
    if Code(line) == RemovedCode then [RemovedCode + Text(line)]
    else if Code(line) == AddedCode || Code(line) == HintCode then []
    else [ContextCode + Text(line)]
  }

  /** What one diff line adds to the After column. */
  function RightOf(line: string): seq<string>
  {
    if Code(line) == RemovedCode || Code(line) == HintCode then []
    else if Code(line) == AddedCode then [AddedCode + Text(line)]
    else [ContextCode + Text(line)]
  }

  /** The Before column of a whole diff, in diff order. */
  function LeftColumn(diff: seq<string>): seq<string>
  {
    if diff == [] then [] else LeftColumn(diff[..|diff| - 1]) + LeftOf(diff[|diff| - 1])
  }

  /** The After column of a whole diff, in diff order. */
  function RightColumn(diff: seq<string>): seq<string>
  {
    if diff == [] then [] else RightColumn(diff[..|diff| - 1]) + RightOf(diff[|diff| - 1])
  }

  /** Appending a line to a diff appends its entries to the columns. */
  lemma ColumnsSnoc(diff: seq<string>, line: string)
    ensures LeftColumn(diff + [line]) == LeftColumn(diff) + LeftOf(line)
    ensures RightColumn(diff + [line]) == RightColumn(diff) + RightOf(line)
  {
    assert (diff + [line])[..|diff|] == diff;
  }

  /** Sorts the lines of an ndiff output into the Before and After columns. */
  method Classify(diff: seq<string>) returns (left: seq<string>, right: seq<string>)
    ensures left == LeftColumn(diff) && right == RightColumn(diff)
  {
    left, right := [], [];
    for i := 0 to |diff|
      invariant left == LeftColumn(diff[..i])
      invariant right == RightColumn(diff[..i])
    {
      assert diff[..i + 1][..i] == diff[..i];
      var code := Code(diff[i]);
      var text := Text(diff[i]);
      if code == RemovedCode {
        left := left + [RemovedCode + text];
      } else if code == AddedCode {
        right := right + [AddedCode + text];
      } else if code == HintCode {
        continue;
      } else {
        left := left + [ContextCode + text];
        right := right + [ContextCode + text];
      }
    }
    assert diff[..|diff|] == diff;
  }

  /** Every Before entry is marked removed or context, every After entry added or context, whatever the input. */
  lemma {:induction false} ColumnMarks(diff: seq<string>)
    ensures forall i :: 0 <= i < |LeftColumn(diff)| ==> Code(LeftColumn(diff)[i]) in {ContextCode, RemovedCode}
    ensures forall i :: 0 <= i < |RightColumn(diff)| ==> Code(RightColumn(diff)[i]) in {ContextCode, AddedCode}
  {
    if diff != [] {
      var line := diff[|diff| - 1];
      ColumnMarks(diff[..|diff| - 1]);
      TagRoundTrip(RemovedCode, Text(line));
      TagRoundTrip(AddedCode, Text(line));
      TagRoundTrip(ContextCode, Text(line));
    }
  }

  /** Prefixing a two-character tag is undone by `Code` and `Text`. */
  lemma TagRoundTrip(code: string, text: string)
    requires |code| == 2
    ensures Code(code + text) == code && Text(code + text) == text
  {
    assert (code + text)[..2] == code;
    assert (code + text)[2..] == text;
  }

  lemma CodesDiffer()
    ensures ContextCode != RemovedCode && ContextCode != AddedCode && ContextCode != HintCode
    ensures RemovedCode != AddedCode && RemovedCode != HintCode && AddedCode != HintCode
  {
    assert ContextCode[0] != RemovedCode[0] && ContextCode[0] != AddedCode[0] && ContextCode[0] != HintCode[0];
    assert RemovedCode[0] != AddedCode[0] && RemovedCode[0] != HintCode[0] && AddedCode[0] != HintCode[0];
  }

  /** A removed line goes to the Before column only, unchanged. */
  lemma RemovedGoesLeft(text: string)
    ensures LeftOf(RemovedCode + text) == [RemovedCode + text] && RightOf(RemovedCode + text) == []
  {
    TagRoundTrip(RemovedCode, text);
    CodesDiffer();
  }

  /** An added line goes to the After column only, unchanged. */
  lemma AddedGoesRight(text: string)
    ensures LeftOf(AddedCode + text) == [] && RightOf(AddedCode + text) == [AddedCode + text]
  {
    TagRoundTrip(AddedCode, text);
    CodesDiffer();
  }

  /** A hint line goes to neither column. */
  lemma HintDropped(text: string)
    ensures LeftOf(HintCode + text) == [] && RightOf(HintCode + text) == []
  {
    TagRoundTrip(HintCode, text);
    CodesDiffer();
  }

  /** A context line goes to both columns, unchanged. */
  lemma ContextGoesBoth(text: string)
    ensures LeftOf(ContextCode + text) == [ContextCode + text] && RightOf(ContextCode + text) == [ContextCode + text]
  {
    TagRoundTrip(ContextCode, text);
    CodesDiffer();
  }

  /** Any other line goes to both columns, re-tagged as context. */
  lemma OtherGoesBoth(line: string)
    requires Code(line) !in {RemovedCode, AddedCode, HintCode}
    ensures LeftOf(line) == [ContextCode + Text(line)] && RightOf(line) == [ContextCode + Text(line)]
  {
  }

  /** A sequence of ndiff lines: every line starts with one of the four tags. */
  predicate WellFormed(diff: seq<string>)
  {
    forall i :: 0 <= i < |diff| ==> |diff[i]| >= 2 && Code(diff[i]) in {ContextCode, RemovedCode, AddedCode, HintCode}
  }

  /** The lines of `diff` tagged context or `code`, in order (the Before side for "- ", the After side for "+ "). */
  function Keep(diff: seq<string>, code: string): seq<string>
  {
    if diff == [] then []
    else
      var line := diff[|diff| - 1];
      Keep(diff[..|diff| - 1], code) + (if Code(line) == ContextCode || Code(line) == code then [line] else [])
  }

  /** The text side of a sequence of tagged lines. */
  function Strip(lines: seq<string>): (r: seq<string>)
    ensures |r| == |lines|
  {
    if lines == [] then [] else Strip(lines[..|lines| - 1]) + [Text(lines[|lines| - 1])]
  }

  /**
   * What `difflib.restore` gives back from a diff: the text of each line tagged context
   * or `code`, in order. ndiff promises that "- " restores the old lines and "+ " the new.
   */
  function Restore(diff: seq<string>, code: string): seq<string>
  {
    Strip(Keep(diff, code))
  }

  /** The contract of `difflib.ndiff(SplitLines(before), SplitLines(after))`. */
  predicate ScriptFor(diff: seq<string>, before: string, after: string)
  {
    WellFormed(diff) && Restore(diff, RemovedCode) == SplitLines(before) && Restore(diff, AddedCode) == SplitLines(after)
  }

  /**
   * On a well-formed diff the Before column is exactly the diff's context and removed lines,
   * the After column exactly its context and added lines, each verbatim and in diff order;
   * hint lines appear in neither.
   */
  lemma {:induction false} ColumnsVerbatim(diff: seq<string>)
    requires WellFormed(diff)
    ensures LeftColumn(diff) == Keep(diff, RemovedCode)
    ensures RightColumn(diff) == Keep(diff, AddedCode)
  {
    if diff != [] {
      var line := diff[|diff| - 1];
      ColumnsVerbatim(diff[..|diff| - 1]);
      assert Code(line) + Text(line) == line;
    }
  }

  /** Stripping the tags off the columns of a diff restores the two sides of the diff. */
  lemma ColumnsRestore(diff: seq<string>)
    requires WellFormed(diff)
    ensures Strip(LeftColumn(diff)) == Restore(diff, RemovedCode)
    ensures Strip(RightColumn(diff)) == Restore(diff, AddedCode)
  {
    ColumnsVerbatim(diff);
  }

  /**
   * The two columns `print_diff` lays out for a change from `before` to `after`, given the
   * ndiff output `diff` for their lines: with tags stripped, Before holds the lines of `before` and
   * After those of `after`.
   */
  method DiffColumns(before: string, after: string, diff: seq<string>) returns (left: seq<string>, right: seq<string>)
    requires ScriptFor(diff, before, after)
    ensures left == LeftColumn(diff) && right == RightColumn(diff)
    ensures Strip(left) == SplitLines(before) && Strip(right) == SplitLines(after)
  {
    left, right := Classify(diff);
    ColumnsRestore(diff);
  }
}
