/** The trail of past beam endpoints: a bounded first-in first-out history.
    Each frame appends the current beam endpoint and, when the history is
    then longer than `Capacity`, drops its oldest entry. */
module Trail {

  /** Points kept between frames (the `> 50` test before the shift). */
  const Capacity: nat := 50

  function Min(a: int, b: int): int
  {
    if a <= b then a else b
  }

  /** One frame's update of the trail: push `p`, then shift off the oldest
      point if the trail is over capacity. */
  function Step<T>(t: seq<T>, p: T): (r: seq<T>)
    ensures r != [] && r[|r| - 1] == p
    ensures 0 <= |t| + 1 - |r| <= 1
    ensures r == (t + [p])[|t| + 1 - |r|..]
    ensures |t| <= Capacity ==> |r| == Min(|t| + 1, Capacity)
  {
    var pushed := t + [p];
    if |pushed| > Capacity then pushed[1..] else pushed
  }

  /** The beam endpoints of frames 0, 1, ..., k-1, oldest first. */
  function History<T>(f: nat -> T, k: nat): (h: seq<T>)
    ensures |h| == k
    ensures forall i :: 0 <= i < k ==> h[i] == f(i)
  {
    if k == 0 then [] else History(f, k - 1) + [f(k - 1)]
  }

  /** The trail after k frames from an empty start, frame i pushing f(i). */
  function TraceAfter<T>(f: nat -> T, k: nat): (t: seq<T>)
    ensures |t| == Min(k, Capacity)
  {
    if k == 0 then [] else Step(TraceAfter(f, k - 1), f(k - 1))
  }

  /** One frame on a window of the latest m entries of h gives the window of
      the latest min(m + 1, Capacity) entries of h + [x]. */
  lemma WindowStep<T>(h: seq<T>, x: T, m: nat)
    requires m <= |h| && m <= Capacity
    ensures Step(h[|h| - m..], x) == (h + [x])[|h| + 1 - Min(m + 1, Capacity)..]
  {
    var pushed := h[|h| - m..] + [x];
    assert pushed == (h + [x])[|h| - m..];
    if |pushed| > Capacity {
      assert pushed[1..] == (h + [x])[|h| - m + 1..];
    }
  }

  /** After k frames the trail is the latest min(k, Capacity) entries of
      the history of beam endpoints. */
  lemma {:induction false} TraceIsLatestWindow<T>(f: nat -> T, k: nat)
    ensures TraceAfter(f, k) == History(f, k)[k - Min(k, Capacity)..]
  {
    if k > 0 {
      TraceIsLatestWindow(f, k - 1);
      var h := History(f, k - 1);
      WindowStep(h, f(k - 1), Min(k - 1, Capacity));
      assert TraceAfter(f, k) == Step(TraceAfter(f, k - 1), f(k - 1));
      assert History(f, k) == h + [f(k - 1)];
      assert Min(k, Capacity) == Min(Min(k - 1, Capacity) + 1, Capacity);
    }
  }

  /** After k frames the trail holds exactly the endpoints of the last
      min(k, Capacity) frames, oldest first. */
  lemma {:induction false} TraceHoldsLatestFrames<T>(f: nat -> T, k: nat)
    ensures forall i :: 0 <= i < |TraceAfter(f, k)| ==>
              TraceAfter(f, k)[i] == f(k - Min(k, Capacity) + i)
  {
    TraceIsLatestWindow(f, k);
  }

  /** Sixty frames from an empty start leave frames 10..59 (the 11th to the
      60th point) in the trail, in insertion order. */
  lemma SixtyFramesKeepTheLastFifty<T>(f: nat -> T)
    ensures |TraceAfter(f, 60)| == 50
    ensures forall i :: 0 <= i < 50 ==> TraceAfter(f, 60)[i] == f(10 + i)
  {
    TraceHoldsLatestFrames(f, 60);
  }
}
