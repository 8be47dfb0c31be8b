/** The frame-skip scheduler: the 32-bit counter `frameCount` that decides on
    which gated callbacks a new light estimate is taken. */
module FrameSchedule {

  const MinInt32: int := -0x8000_0000
  const MaxInt32: int := 0x7fff_ffff

  /** A C# `int`. */
  type Int32 = x: int | MinInt32 <= x <= MaxInt32

  /** `x--` on a C# `int` in an unchecked context: two's-complement
      wrap-around, so the result is x - 1 modulo 2^32. */
  function Decrement(x: Int32): (r: Int32)
    ensures (x - 1 - r) % 0x1_0000_0000 == 0
    ensures x > MinInt32 ==> r < x
  {
    if x == MinInt32 then MaxInt32 else x - 1
  }

  /** A gated callback takes a new estimate when the counter is not positive. */
  predicate EstimateDue(frameCount: Int32)
  {
    frameCount <= 0
  }

  /** The counter after one gated callback that runs to its end: reset to
      skipFrames when an estimate was due, then decremented. */
  function NextFrameCount(frameCount: Int32, skipFrames: Int32): Int32
  {
    Decrement(if EstimateDue(frameCount) then skipFrames else frameCount)
  }

  /** The counter after n gated callbacks, starting from its initial value 0. */
  function FrameCountAfter(skipFrames: Int32, n: nat): Int32
  {
    if n == 0 then 0 else NextFrameCount(FrameCountAfter(skipFrames, n - 1), skipFrames)
  }

  /** With skipFrames >= 1, after n = q * skipFrames + r gated callbacks
      (q full rounds and r more), the counter is 0 when r is 0 and
      skipFrames - r otherwise. */
  lemma {:induction false} FrameCountInRound(skipFrames: Int32, n: nat, q: nat, r: nat)
    requires skipFrames >= 1 && r < skipFrames && n == q * skipFrames + r
    ensures FrameCountAfter(skipFrames, n) == if r == 0 then 0 else skipFrames - r
    decreases n
  {
    if r > 0 {
      FrameCountInRound(skipFrames, n - 1, q, r - 1);
    } else if q > 0 {
      assert (q - 1) * skipFrames == q * skipFrames - skipFrames;
      FrameCountInRound(skipFrames, n - 1, q - 1, skipFrames - 1);
    }
  }

  /** With skipFrames >= 1, an estimate is taken on exactly every
      skipFrames-th gated callback, starting with the first one (index 0). */
  lemma EstimateEverySkipFrames(skipFrames: Int32, n: nat)
    requires skipFrames >= 1
    ensures EstimateDue(FrameCountAfter(skipFrames, n)) <==> n % skipFrames == 0
  {
    var q, r := n / skipFrames, n % skipFrames;
    assert n == q * skipFrames + r && r < skipFrames;
    FrameCountInRound(skipFrames, n, q, r);
  }

  /** With a non-positive skipFrames (above the minimum int) every gated
      callback takes an estimate. */
  lemma {:induction false} NonPositiveSkipEstimatesAlways(skipFrames: Int32, n: nat)
    requires MinInt32 < skipFrames <= 0
    ensures EstimateDue(FrameCountAfter(skipFrames, n))
  {
    if n > 0 {
      NonPositiveSkipEstimatesAlways(skipFrames, n - 1);
    }
  }

  /** With skipFrames equal to the minimum int the decrement wraps to the
      maximum int, so after the first estimate the next 2^31 - 1 gated
      callbacks take none. */
  lemma {:induction false} MinimumSkipWraps(n: nat)
    requires 1 <= n <= MaxInt32 + 1
    ensures FrameCountAfter(MinInt32, n) == MaxInt32 - (n - 1)
    ensures n <= MaxInt32 ==> !EstimateDue(FrameCountAfter(MinInt32, n))
  {
    if n > 1 {
      MinimumSkipWraps(n - 1);
    }
  }
}
