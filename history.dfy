/**
 * The per-file snapshot history: a queue that keeps at most `cap` snapshots and,
 * when full, drops its oldest snapshot to make room for a new one.
 */
module History {

  /** Appends `x` to the queue `q`, evicting the oldest snapshot when `q` already holds `cap`. */
  function BoundedAppend(q: seq<string>, x: string, cap: nat): (r: seq<string>)
    requires 1 <= cap && |q| <= cap
    ensures |r| == if |q| < cap then |q| + 1 else cap
    ensures r == (q + [x])[|q| + 1 - |r|..]
    ensures r[|r| - 1] == x
  {
    if |q| < cap then q + [x] else q[1..] + [x]
  }

  /** The snapshot a new read is compared with: the newest one, or "" when there is none. */
  function Baseline(q: seq<string>): string
  {
    if q == [] then "" else q[|q| - 1]
  }

  /** The queue after appending every element of `xs`, in order. */
  function AppendAll(q: seq<string>, xs: seq<string>, cap: nat): (r: seq<string>)
    requires 1 <= cap && |q| <= cap
    ensures |r| <= cap
    decreases |xs|
  {
    if xs == [] then q else AppendAll(BoundedAppend(q, xs[0], cap), xs[1..], cap)
  }

  /** The newest `cap` elements of `s` (all of them when there are fewer). */
  function Window(s: seq<string>, cap: nat): (w: seq<string>)
  {
    if |s| <= cap then s else s[|s| - cap..]
  }

  /** After any sequence of appends the queue holds exactly the newest `cap` snapshots ever appended (fewer if there were fewer). */
  lemma {:induction false} AppendAllWindow(q: seq<string>, xs: seq<string>, cap: nat)
    requires 1 <= cap && |q| <= cap
    ensures AppendAll(q, xs, cap) == Window(q + xs, cap)
    decreases |xs|
  {
    if xs == [] {
      assert q + xs == q;
    } else {
      var q' := BoundedAppend(q, xs[0], cap);
      var k := |q| + 1 - |q'|;
      AppendAllWindow(q', xs[1..], cap);
      ShiftedWindow(q, xs, q', k);
      WindowDrop(q + xs, k, cap);
    }
  }

  /** The queue after one append, followed by the rest, is a suffix of everything appended. */
  lemma ShiftedWindow(q: seq<string>, xs: seq<string>, q': seq<string>, k: nat)
    requires xs != [] && k <= |q| && q' == (q + [xs[0]])[k..]
    ensures q' + xs[1..] == (q + xs)[k..]
  {
    assert q + xs == (q + [xs[0]]) + xs[1..];
  }

  /** Dropping oldest elements does not change the window as long as at least `cap` remain. */
  lemma WindowDrop(t: seq<string>, k: nat, cap: nat)
    requires k <= |t| && (k == 0 || |t| - k >= cap)
    ensures Window(t[k..], cap) == Window(t, cap)
  {
    if k > 0 && |t| - k > cap {
      assert t[k..][|t| - k - cap..] == t[|t| - cap..];
    }
  }

  /** Once `cap` more snapshots have been appended, nothing older is retrievable. */
  lemma OldestEvicted(q: seq<string>, xs: seq<string>, cap: nat)
    requires 1 <= cap && |q| <= cap && |xs| >= cap
    ensures AppendAll(q, xs, cap) == xs[|xs| - cap..]
  {
    AppendAllWindow(q, xs, cap);
    assert (q + xs)[|q| + |xs| - cap..] == xs[|xs| - cap..];
  }
}
