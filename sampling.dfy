/** The subsampling walk over the camera's pixel buffer: the loop visits the
    byte offsets 0, 64, 128, ... below the buffer length and reads three
    consecutive bytes at each of them (R, G, B of an RGB888 pixel). */
module Sampling {

  /** One element of the camera image's `byte[]` buffer. */
  type byte = x: int | 0 <= x < 256

  /** Distance in bytes between two offsets visited by the sampling loop. */
  const Stride: nat := 64

  /** The offset visited by the k-th iteration of the sampling loop. */
  function Offset(k: nat): nat
  {
    Stride * k
  }

  /** Number of iterations of `for (p = 0; p < n; p += 64)`: ceil(n / 64). */
  function SampleCount(n: nat): nat
  {
    (n + Stride - 1) / Stride
  }

  /** Number of iterations whose three reads p, p + 1, p + 2 all lie inside
      a buffer of n bytes. */
  function CompleteSamples(n: nat): nat
  {
    (n + Stride - 3) / Stride
  }

  /** The loop never reads past the end of a buffer of n bytes. */
  predicate ReadsInBounds(n: nat)
  {
    n % Stride != 1 && n % Stride != 2
  }

  /** Luminance (the Y component of YIQ) of one pixel. The three weights add
      up to one, so the luminance of a pixel is a value in [0, 255]. */
  function Luma(r: byte, g: byte, b: byte): (y: real)
    ensures 0.0 <= y <= 255.0
    ensures r == g == b ==> y == r as real
  {
    r as real * 0.299 + g as real * 0.587 + b as real * 0.114
  }

  /** Luminance of the pixel read by the k-th iteration. */
  function LumaAt(px: seq<byte>, k: nat): (y: real)
    requires Offset(k) + 2 < |px|
    ensures 0.0 <= y <= 255.0
  {
    Luma(px[Offset(k)], px[Offset(k) + 1], px[Offset(k) + 2])
  }

  /** Sum of the luminances read by the first k iterations. */
  function PartialSum(px: seq<byte>, k: nat): (s: real)
    requires k == 0 || Offset(k - 1) + 2 < |px|
    ensures 0.0 <= s <= 255.0 * k as real
  {
    if k == 0 then 0.0 else PartialSum(px, k - 1) + LumaAt(px, k - 1)
  }

  /** The iteration with index k is taken by the loop exactly when its offset
      lies below the buffer length. */
  lemma VisitedOffsets(n: nat, k: nat)
    ensures Offset(k) < n <==> k < SampleCount(n)
  {
    var q, r := (n + Stride - 1) / Stride, (n + Stride - 1) % Stride;
    assert n + Stride - 1 == Stride * q + r;
    if k < q {
      assert Stride * k <= Stride * q - Stride;
    } else {
      assert Stride * k >= Stride * q;
    }
  }

  /** The reads of the iteration with index k are all in bounds exactly when
      k is below CompleteSamples(n). */
  lemma SafeReads(n: nat, k: nat)
    ensures Offset(k) + 2 < n <==> k < CompleteSamples(n)
  {
    if n >= 2 {
      var q, r := (n + Stride - 3) / Stride, (n + Stride - 3) % Stride;
      assert n + Stride - 3 == Stride * q + r;
      if k < q {
        assert Stride * k <= Stride * q - Stride;
      } else {
        assert Stride * k >= Stride * q;
      }
    } else {
      assert CompleteSamples(n) == 0;
    }
  }

  /** Every read of every iteration lies in the buffer exactly when the
      length is neither 1 nor 2 modulo 64. */
  lemma ReadsInBoundsExactly(n: nat)
    ensures ReadsInBounds(n) <==> forall k: nat :: k < SampleCount(n) ==> Offset(k) + 2 < n
  {
    SampleCounts(n);
    if !ReadsInBounds(n) {
      var last := SampleCount(n) - 1;
      SafeReads(n, last);
      assert !(Offset(last) + 2 < n);
    } else {
      forall k: nat | k < SampleCount(n) ensures Offset(k) + 2 < n {
        SafeReads(n, k);
      }
    }
  }

  /** The loop takes at most one iteration more than it can complete, and
      exactly as many when ReadsInBounds; otherwise only its last iteration
      reads past the end. */
  lemma SampleCounts(n: nat)
    ensures CompleteSamples(n) <= SampleCount(n) <= CompleteSamples(n) + 1
    ensures ReadsInBounds(n) <==> CompleteSamples(n) == SampleCount(n)
  {
    var q, r := n / Stride, n % Stride;
    assert n == Stride * q + r;
    if r == 0 {
      assert SampleCount(n) == q && CompleteSamples(n) == q by {
        assert n + Stride - 1 == Stride * q + (Stride - 1);
        assert n + Stride - 3 == Stride * q + (Stride - 3);
      }
    } else if r <= 2 {
      assert SampleCount(n) == q + 1 && CompleteSamples(n) == q by {
        assert n + Stride - 1 == Stride * (q + 1) + (r - 1);
        assert n + Stride - 3 == Stride * q + (Stride - 3 + r);
      }
    } else {
      assert SampleCount(n) == q + 1 && CompleteSamples(n) == q + 1 by {
        assert n + Stride - 1 == Stride * (q + 1) + (r - 1);
        assert n + Stride - 3 == Stride * (q + 1) + (r - 3);
      }
    }
  }

  /** Sum of the luminances of every iteration whose reads are in bounds:
      the whole loop's sum when ReadsInBounds, and the sum accumulated
      before the faulting read otherwise. It is at most 255 per iteration
      counted, and, when ReadsInBounds, per iteration the loop takes. */
  function CompleteSum(px: seq<byte>): (s: real)
    ensures 0.0 <= s <= 255.0 * CompleteSamples(|px|) as real
    ensures ReadsInBounds(|px|) ==> s <= 255.0 * SampleCount(|px|) as real
  {
    SampleCounts(|px|);
    var k := CompleteSamples(|px|);
    if k == 0 then 0.0
    else
      SafeReads(|px|, k - 1);
      PartialSum(px, k)
  }

  /** A buffer whose sampled pixels are all black sums to zero. */
  lemma {:induction false} BlackSamplesSumToZero(px: seq<byte>, k: nat)
    requires k == 0 || Offset(k - 1) + 2 < |px|
    requires forall i: nat :: i < k ==> LumaAt(px, i) == 0.0
    ensures PartialSum(px, k) == 0.0
  {
    if k > 0 {
      BlackSamplesSumToZero(px, k - 1);
    }
  }

  /** A buffer whose sampled pixels are all white (255) reaches the upper bound. */
  lemma {:induction false} WhiteSamplesSumToMaximum(px: seq<byte>, k: nat)
    requires k == 0 || Offset(k - 1) + 2 < |px|
    requires forall i: nat :: i < k ==> LumaAt(px, i) == 255.0
    ensures PartialSum(px, k) == 255.0 * k as real
  {
    if k > 0 {
      WhiteSamplesSumToMaximum(px, k - 1);
    }
  }
}
