/**
 * Splitting a text into lines and joining lines back into a text.
 * Only '\n' separates lines here; one trailing '\n' does not start an extra, empty line.
 */
module Lines {

  /** True when `line` holds no line separator. */
  predicate IsLine(line: string)
  {
    '\n' !in line
  }

  /** Splits `t` at every '\n': `n` separators give `n + 1` pieces. */
  function SplitOn(t: string): (r: seq<string>)
    ensures |r| >= 1
    ensures forall i :: 0 <= i < |r| ==> IsLine(r[i])
  {
    if t == [] then [[]]
    else
      var rest := SplitOn(t[1..]);
      if t[0] == '\n' then [[]] + rest
      else [[t[0]] + rest[0]] + rest[1..]
  }

  /** Joins lines with '\n' between consecutive ones (no separator after the last). */
  function Join(lines: seq<string>): string
  {
    if lines == [] then []
    else if |lines| == 1 then lines[0]
    else lines[0] + "\n" + Join(lines[1..])
  }

  /** The lines of a text: the empty text has none, and a final '\n' ends the last line. */
  function SplitLines(s: string): (r: seq<string>)
    ensures r == [] <==> s == []
    ensures forall i :: 0 <= i < |r| ==> IsLine(r[i])
  {
    if s == [] then []
    else if s[|s| - 1] == '\n' then SplitOn(s[..|s| - 1])
    else SplitOn(s)
  }

  lemma {:induction false} JoinSplitOn(t: string)
    ensures Join(SplitOn(t)) == t
  {
    if t != [] {
      var rest := SplitOn(t[1..]);
      JoinSplitOn(t[1..]);
      if t[0] == '\n' {
        assert SplitOn(t) == [[]] + rest;
        assert ([[]] + rest)[1..] == rest;
        assert t == "\n" + t[1..];
      } else {
        var r := SplitOn(t);
        assert r == [[t[0]] + rest[0]] + rest[1..];
        if |rest| == 1 {
          assert t == [t[0]] + rest[0];
        } else {
          assert r[1..] == rest[1..];
          assert Join(rest) == rest[0] + "\n" + Join(rest[1..]);
          assert t == [t[0]] + t[1..];
        }
      }
    }
  }

  /** A line followed by '\n' contributes exactly that line as the first piece. */
  lemma {:induction false} SplitOnLineThen(w: string, u: string)
    requires IsLine(w)
    ensures SplitOn(w + "\n" + u) == [w] + SplitOn(u)
  {
    if w == [] {
      assert (w + "\n" + u)[1..] == u;
    } else {
      assert (w + "\n" + u)[1..] == w[1..] + "\n" + u;
      SplitOnLineThen(w[1..], u);
      assert [w[0]] + w[1..] == w;
    }
  }

  lemma {:induction false} SplitOnLine(w: string)
    requires IsLine(w)
    ensures SplitOn(w) == [w]
  {
    if w != [] {
      SplitOnLine(w[1..]);
      assert [w[0]] + w[1..] == w;
    }
  }

  lemma {:induction false} SplitOnJoin(lines: seq<string>)
    requires |lines| >= 1
    requires forall i :: 0 <= i < |lines| ==> IsLine(lines[i])
    ensures SplitOn(Join(lines)) == lines
  {
    if |lines| == 1 {
      SplitOnLine(lines[0]);
    } else {
      SplitOnJoin(lines[1..]);
      SplitOnLineThen(lines[0], Join(lines[1..]));
      assert [lines[0]] + lines[1..] == lines;
    }
  }

  /** Every line of a text is free of separators, and joining them gives the text back up to its final '\n'. */
  lemma SplitLinesJoin(s: string)
    ensures forall i :: 0 <= i < |SplitLines(s)| ==> IsLine(SplitLines(s)[i])
    ensures s == [] ==> SplitLines(s) == []
    ensures s != [] && s[|s| - 1] == '\n' ==> Join(SplitLines(s)) + "\n" == s
    ensures s != [] && s[|s| - 1] != '\n' ==> Join(SplitLines(s)) == s
  {
    if s != [] {
      if s[|s| - 1] == '\n' {
        JoinSplitOn(s[..|s| - 1]);
        assert s[..|s| - 1] + "\n" == s;
      } else {
        JoinSplitOn(s);
      }
    }
  }

  /** The last character of a join is that of its last line, when that line is not empty. */
  lemma {:induction false} JoinEnds(lines: seq<string>)
    requires |lines| >= 1 && lines[|lines| - 1] != []
    ensures |Join(lines)| >= 1
    ensures Join(lines)[|Join(lines)| - 1] == lines[|lines| - 1][|lines[|lines| - 1]| - 1]
  {
    if |lines| > 1 {
      JoinEnds(lines[1..]);
    }
  }

  /** Lines whose last one is not empty survive a join followed by a split unchanged. */
  lemma SplitLinesOfJoin(lines: seq<string>)
    requires forall i :: 0 <= i < |lines| ==> IsLine(lines[i])
    requires lines == [] || lines[|lines| - 1] != []
    ensures SplitLines(Join(lines)) == lines
  {
    if lines != [] {
      JoinEnds(lines);
      var last := lines[|lines| - 1];
      assert last[|last| - 1] in last;
      SplitOnJoin(lines);
    }
  }
}
