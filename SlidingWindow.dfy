/** The bounded window of chart points that each price series keeps.

    Every polling tick appends one point at the tail and, when the series is
    then longer than the capacity, evicts the head once. `Window` is that
    step folded over the points pushed since the chart was last cleared;
    `LastN` is the independent description of the result: the most recent
    `cap` points, in push order.
 */
module SlidingWindow {

  /** The last min(|s|, cap) elements of `s`, in their original order. */
  function LastN<T>(s: seq<T>, cap: nat): (r: seq<T>)
    ensures |r| == if |s| <= cap then |s| else cap
    ensures s == s[..|s| - |r|] + r
  {
    if |s| <= cap then s else s[|s| - cap..]
  }

  /** One tick on one series: append `x` at the tail, then remove the head
      once if the series is now longer than `cap`. */
  function Step<T>(w: seq<T>, x: T, cap: nat): seq<T>
  {
    var appended := w + [x];
    if |appended| > cap then appended[1..] else appended
  }

  /** A series within capacity stays within capacity after a tick; the
      new point is its tail, and what precedes it is a suffix of the old
      series with at most its head removed. */
  lemma StepKeepsBound<T>(w: seq<T>, x: T, cap: nat)
    requires |w| <= cap
    ensures |Step(w, x, cap)| == if |w| < cap then |w| + 1 else cap
    ensures cap > 0 ==> Step(w, x, cap) == w[|w| + 1 - |Step(w, x, cap)|..] + [x]
  {
  }

  /** The series built from an empty chart by pushing `pushes` one at a time. */
  function Window<T>(pushes: seq<T>, cap: nat): seq<T>
  {
    if pushes == [] then []
    else Step(Window(pushes[..|pushes| - 1], cap), pushes[|pushes| - 1], cap)
  }

  /** Pushing one more point is one more step. */
  lemma WindowPush<T>(pushes: seq<T>, x: T, cap: nat)
    ensures Window(pushes + [x], cap) == Step(Window(pushes, cap), x, cap)
  {
    assert (pushes + [x])[..|pushes|] == pushes;
  }

  /** The fold of the per-tick step keeps exactly the last `cap` pushes:
      only the head is ever evicted, the new point is always the tail and
      nothing is reordered. */
  lemma {:induction false} WindowIsLastN<T>(pushes: seq<T>, cap: nat)
    ensures Window(pushes, cap) == LastN(pushes, cap)
  {
    if pushes != [] {
      var n := |pushes|;
      var init, x := pushes[..n - 1], pushes[n - 1];
      assert pushes == init + [x];
      WindowIsLastN(init, cap);
      var w := LastN(init, cap);
      if n - 1 < cap {
        assert w == init;
      } else {
        assert w == init[n - 1 - cap..];
        assert (w + [x])[1..] == pushes[n - cap..];
      }
    }
  }

  /** Bound and contents of the window after any number of pushes. */
  lemma WindowContents<T>(pushes: seq<T>, cap: nat)
    ensures |Window(pushes, cap)| == if |pushes| <= cap then |pushes| else cap
    ensures |Window(pushes, cap)| <= cap
    ensures forall k :: 0 <= k < |Window(pushes, cap)| ==>
      Window(pushes, cap)[k] == pushes[|pushes| - |Window(pushes, cap)| + k]
  {
    WindowIsLastN(pushes, cap);
    SuffixAt(pushes, LastN(pushes, cap));
  }

  lemma SuffixAt<T>(s: seq<T>, r: seq<T>)
    requires |r| <= |s| && s == s[..|s| - |r|] + r
    ensures forall k :: 0 <= k < |r| ==> r[k] == s[|s| - |r| + k]
  {
    forall k | 0 <= k < |r|
      ensures r[k] == s[|s| - |r| + k]
    {
      assert s[|s| - |r| + k] == (s[..|s| - |r|] + r)[|s| - |r| + k];
    }
  }

  /** Two series pushed the same number of times have the same length, so
      a step that trims "when both are over capacity" trims both or neither. */
  lemma WindowLengthsAgree<S, T>(a: seq<S>, b: seq<T>, cap: nat)
    requires |a| == |b|
    ensures |Window(a, cap)| == |Window(b, cap)|
  {
    WindowContents(a, cap);
    WindowContents(b, cap);
  }

  /** The session scenario: capacity 3, five pushes, the last three remain. */
  lemma FivePushesCapacityThree()
    ensures Window([(0, 10), (1, 20), (2, 30), (3, 40), (4, 50)], 3)
         == [(2, 30), (3, 40), (4, 50)]
  {
    var s := [(0, 10), (1, 20), (2, 30), (3, 40), (4, 50)];
    WindowIsLastN(s, 3);
    assert s[2..] == [(2, 30), (3, 40), (4, 50)];
  }
}
