/** The arithmetic of one light estimate: normalising the luminance sum,
    blending it with the initial light intensity (floored at zero) and
    exponentially smoothing the light intensity towards that target.
    Floating-point values are modelled over the reals, together with the
    one IEEE behaviour the source can reach: a division by zero, which yields
    an infinity or NaN that every later operation carries along. */
module Filter {
  import opened Sampling

  /** A `float`/`double` of the source: a finite value, taken over the reals,
      or one of the non-finite values (an infinity or NaN). */
  datatype Num = Finite(value: real) | NonFinite

  /** IEEE division: dividing by zero, or dividing a non-finite value,
      gives a non-finite value. */
  function Divide(x: Num, d: real): (q: Num)
    ensures q.Finite? <==> x.Finite? && d != 0.0
  {
    if x.Finite? && d != 0.0 then Finite(x.value / d) else NonFinite
  }

  /** A finite quotient times the divisor gives back the dividend. */
  lemma DivideInverse(x: Num, d: real)
    requires x.Finite? && d != 0.0
    ensures Divide(x, d).value * d == x.value
  {
  }

  /** The integer normaliser `pixels.Length / 16`. */
  function Normaliser(n: nat): (d: nat)
    ensures d == 0 <==> n < 16
    ensures 16 * d <= n < 16 * d + 16
  {
    n / 16
  }

  /** Normalises a luminance sum of an n-byte buffer: divides it by the
      integer normaliser n / 16, then by 255. */
  function Normalise(sum: real, n: nat): (m: Num)
    ensures m.Finite? <==> n >= 16
  {
    Divide(Divide(Finite(sum), Normaliser(n) as real), 255.0)
  }

  /** A sum of at most 255 per unit of the normaliser normalises to a value
      m in [0, 1]. */
  lemma NormaliseBounds(sum: real, n: nat, m: Num)
    requires n >= 16 && 0.0 <= sum <= 255.0 * Normaliser(n) as real && m == Normalise(sum, n)
    ensures 0.0 <= m.value <= 1.0
  {
    var d := Normaliser(n) as real;
    var u := sum / d;
    assert m.value == u / 255.0;
    assert u * d == sum;
    NonNegativeFactor(u, d);
    assert (255.0 - u) * d == 255.0 * d - sum;
    NonNegativeFactor(255.0 - u, d);
  }

  /** A factor whose product with a positive value is non-negative is itself non-negative. */
  lemma NonNegativeFactor(x: real, d: real)
    requires d > 0.0 && x * d >= 0.0
    ensures x >= 0.0
  {
  }

  /** The normalised luminance of a buffer. It is finite exactly when the
      buffer holds at least 16 bytes. */
  function Measurement(px: seq<byte>): (m: Num)
    requires ReadsInBounds(|px|)
    ensures m.Finite? <==> |px| >= 16
  {
    Normalise(CompleteSum(px), |px|)
  }

  /** The loop takes no more samples than the normaliser counts units: for
      n >= 16, ceil(n / 64) <= floor(n / 16). */
  lemma SamplesWithinNormaliser(n: nat)
    requires n >= 16
    ensures 1 <= SampleCount(n) <= Normaliser(n)
  {
    var a, r := n / 16, n % 16;
    assert n == 16 * a + r && a >= 1;
    assert n + Stride - 1 < Stride * (a + 1);
  }

  /** A finite measurement lies in [0, 1]: each sample contributes at most
      255, and the normaliser is at least the number of samples. */
  lemma MeasurementBounds(px: seq<byte>)
    requires ReadsInBounds(|px|) && |px| >= 16
    ensures 0.0 <= Measurement(px).value <= 1.0
  {
    SamplesWithinNormaliser(|px|);
    NormaliseBounds(CompleteSum(px), |px|, Measurement(px));
  }

  /** Scaling a non-negative value by a factor in [0, 1] keeps it between zero and itself. */
  lemma Scale(f: real, x: real)
    requires 0.0 <= f <= 1.0 && x >= 0.0
    ensures 0.0 <= f * x <= x
  {
    assert x - f * x == (1.0 - f) * x;
  }

  /** The scaled measurement blended with the initial intensity, before the floor. */
  function Blend(measurement: real, weight: real, initial: real): real
  {
    8.0 * measurement * weight + initial * (1.0 - weight)
  }

  /** The target intensity of a new estimate: the blend of the scaled
      measurement with the initial intensity, floored at zero. A non-finite
      measurement gives a non-finite target. */
  function Target(measurement: Num, weight: real, initial: real): (t: Num)
    ensures t.Finite? <==> measurement.Finite?
    ensures t.Finite? ==> t.value >= 0.0 && t.value >= Blend(measurement.value, weight, initial)
    ensures t.Finite? ==> t.value == 0.0 || t.value == Blend(measurement.value, weight, initial)
  {
    match measurement
    case NonFinite => NonFinite
    case Finite(m) =>
      var blended := Blend(m, weight, initial);
      Finite(if blended <= 0.0 then 0.0 else blended)
  }

  /** With weight zero the target of every finite measurement depends on the
      initial intensity alone: an image of at least 16 bytes whose reads are
      in bounds is ignored. A shorter image is not (ShortImageNotIgnored). */
  lemma ZeroWeightIgnoresImage(a: real, b: real, initial: real)
    ensures Target(Finite(a), 0.0, initial) == Target(Finite(b), 0.0, initial)
    ensures Target(Finite(a), 0.0, initial).value == if initial <= 0.0 then 0.0 else initial
  {
  }

  /** A brighter measurement never gives a dimmer target (for a weight in [0, 1]). */
  lemma TargetMonotonic(a: real, b: real, weight: real, initial: real)
    requires a <= b && 0.0 <= weight <= 1.0
    ensures Target(Finite(a), weight, initial).value <= Target(Finite(b), weight, initial).value
  {
    Scale(weight, 8.0 * (b - a));
    assert weight * (8.0 * (b - a)) == 8.0 * b * weight - 8.0 * a * weight;
    assert Blend(a, weight, initial) <= Blend(b, weight, initial);
  }

  /** The target of a buffer is at most the target of a full-brightness
      measurement (one): 8 * weight + initial * (1 - weight), floored at zero. */
  lemma MeasuredTargetBounded(px: seq<byte>, weight: real, initial: real)
    requires ReadsInBounds(|px|) && |px| >= 16 && 0.0 <= weight <= 1.0
    ensures 0.0 <= Target(Measurement(px), weight, initial).value <= Target(Finite(1.0), weight, initial).value
  {
    MeasurementBounds(px);
    TargetMonotonic(Measurement(px).value, 1.0, weight, initial);
  }

  /** The target is floored at zero only: with full weight it is eight times
      the measurement, however bright. */
  lemma TargetNotCapped(m: real, initial: real)
    requires m >= 0.0
    ensures Target(Finite(m), 1.0, initial) == Finite(8.0 * m)
  {
  }

  /** One smoothing step over the reals: `current * damping + target * (1 - damping)`. */
  function Smoothed(current: real, target: real, damping: real): real
  {
    current * damping + target * (1.0 - damping)
  }

  /** One smoothing step on the source's floats. */
  function Smooth(current: Num, target: Num, damping: real): (s: Num)
    ensures s.Finite? <==> current.Finite? && target.Finite?
  {
    if current.Finite? && target.Finite? then Finite(Smoothed(current.value, target.value, damping))
    else NonFinite
  }

  /** Smoothing moves the intensity a fraction (1 - damping) of the way to
      the target: the distance to the target shrinks by the factor damping. */
  lemma SmoothingContracts(current: real, target: real, damping: real)
    ensures Smoothed(current, target, damping) - target == damping * (current - target)
  {
    calc {
      Smoothed(current, target, damping) - target;
      current * damping + target * (1.0 - damping) - target;
      current * damping - target * damping;
      damping * (current - target);
    }
  }

  /** With damping in [0, 1] the smoothed intensity lies between the current
      intensity and the target. */
  lemma SmoothedBetween(current: real, target: real, damping: real)
    requires 0.0 <= damping <= 1.0
    ensures current <= target ==> current <= Smoothed(current, target, damping) <= target
    ensures target <= current ==> target <= Smoothed(current, target, damping) <= current
  {
    if current <= target {
      RisesTowards(current, target, damping);
    }
    if target <= current {
      FallsTowards(current, target, damping);
    }
  }

  /** SmoothedBetween for a target at or above the current intensity: the
      step covers the share 1 - damping of the gap and leaves the share damping. */
  lemma RisesTowards(current: real, target: real, damping: real)
    requires 0.0 <= damping <= 1.0 && current <= target
    ensures current <= Smoothed(current, target, damping) <= target
  {
    NonNegativeProduct(1.0 - damping, target - current);
    NonNegativeProduct(damping, target - current);
    assert Smoothed(current, target, damping) - current == (1.0 - damping) * (target - current);
    assert target - Smoothed(current, target, damping) == damping * (target - current);
  }

  /** SmoothedBetween for a target at or below the current intensity. */
  lemma FallsTowards(current: real, target: real, damping: real)
    requires 0.0 <= damping <= 1.0 && target <= current
    ensures target <= Smoothed(current, target, damping) <= current
  {
    NonNegativeProduct(1.0 - damping, current - target);
    NonNegativeProduct(damping, current - target);
    assert current - Smoothed(current, target, damping) == (1.0 - damping) * (current - target);
    assert Smoothed(current, target, damping) - target == damping * (current - target);
  }

  /** The product of two non-negative values is non-negative. */
  lemma NonNegativeProduct(a: real, b: real)
    requires a >= 0.0 && b >= 0.0
    ensures a * b >= 0.0
  {
  }

  /** The target is a fixed point of smoothing, and for damping below one it
      is the only one. */
  lemma SmoothedFixedPoint(current: real, target: real, damping: real)
    requires damping < 1.0
    ensures Smoothed(current, target, damping) == current <==> current == target
  {
    SmoothingContracts(current, target, damping);
    var gap := Smoothed(current, target, damping) - current;
    assert gap == (1.0 - damping) * (target - current);
    if current < target {
      Positive(1.0 - damping, target - current);
    } else if target < current {
      Positive(1.0 - damping, current - target);
      assert gap == -((1.0 - damping) * (current - target));
    }
  }

  /** The product of two positive values is positive. */
  lemma Positive(a: real, b: real)
    requires a > 0.0 && b > 0.0
    ensures a * b > 0.0
  {
  }

  /** Smoothing an intensity towards itself leaves it unchanged, for every damping. */
  lemma SmoothSelf(x: Num, damping: real)
    ensures Smooth(x, x, damping) == x
  {
    if x.Finite? {
      SmoothingContracts(x.value, x.value, damping);
    }
  }

  /** damping^n. */
  function Power(damping: real, n: nat): real
  {
    if n == 0 then 1.0 else damping * Power(damping, n - 1)
  }

  /** The intensity after n smoothing steps towards a fixed target. */
  function Settle(current: real, target: real, damping: real, n: nat): real
  {
    if n == 0 then current else Smoothed(Settle(current, target, damping, n - 1), target, damping)
  }

  /** Repeated estimates of the same image converge geometrically: after n
      steps the distance to the target is damping^n times the initial one. */
  lemma {:induction false} SettleGeometric(current: real, target: real, damping: real, n: nat)
    ensures Settle(current, target, damping, n) - target == Power(damping, n) * (current - target)
  {
    if n > 0 {
      SettleGeometric(current, target, damping, n - 1);
      var prev := Settle(current, target, damping, n - 1);
      SmoothingContracts(prev, target, damping);
      GeometricStep(Settle(current, target, damping, n), prev, target, damping, Power(damping, n - 1), current);
    }
  }

  /** One induction step of SettleGeometric over the reals: a gap that
      shrinks by d from a gap p times the initial one is d * p times it. */
  lemma GeometricStep(next: real, prev: real, target: real, d: real, p: real, current: real)
    requires next - target == d * (prev - target) && prev - target == p * (current - target)
    ensures next - target == (d * p) * (current - target)
  {
  }

  /** For damping in [0, 1] the factor damping^n never grows with n and stays in [0, 1]. */
  lemma {:induction false} PowerDecreasing(damping: real, n: nat)
    requires 0.0 <= damping <= 1.0
    ensures 0.0 <= Power(damping, n + 1) <= Power(damping, n) <= 1.0
  {
    if n > 0 {
      PowerDecreasing(damping, n - 1);
    }
    var p := Power(damping, n);
    assert 0.0 <= p <= 1.0;
    Scale(damping, p);
    assert Power(damping, n + 1) == damping * p;
  }

  /** A black image of at least 16 bytes whose reads are in bounds (every
      sampled pixel zero) measures zero, so its target is the initial
      intensity's share alone, floored at zero. */
  lemma BlackImageTarget(px: seq<byte>, weight: real, initial: real)
    requires ReadsInBounds(|px|) && |px| >= 16
    requires forall i: nat :: i < CompleteSamples(|px|) ==> Offset(i) + 2 < |px| && LumaAt(px, i) == 0.0
    ensures Measurement(px) == Finite(0.0)
    ensures Target(Measurement(px), weight, initial).value == if initial * (1.0 - weight) <= 0.0 then 0.0 else initial * (1.0 - weight)
  {
    var k := CompleteSamples(|px|);
    if k > 0 {
      SafeReads(|px|, k - 1);
      BlackSamplesSumToZero(px, k);
    }
    assert CompleteSum(px) == 0.0;
  }

  /** An image of 3 to 15 bytes is divided by the normaliser 0 and yields a
      non-finite target whatever the weight, even weight zero: the weight
      does not shield the light from such an image. */
  lemma ShortImageNotIgnored(px: seq<byte>, weight: real, initial: real)
    requires 3 <= |px| < 16
    ensures ReadsInBounds(|px|)
    ensures Measurement(px) == NonFinite
    ensures Target(Measurement(px), weight, initial) == NonFinite
  {
  }

  /** A worked example: a 64-byte buffer whose only sample is the pixel
      (100, 150, 200) sums to 140.75, is divided by 64 / 16 = 4 and by 255;
      with weight 0.5, initial intensity 0.5 and damping 0.6, a light at 0.5
      moves to 0.5 * 0.6 + target * 0.4. */
  lemma WorkedExample(px: seq<byte>)
    requires px == [100, 150, 200] + seq(61, _ => 0)
    ensures Measurement(px) == Finite(140.75 / 4.0 / 255.0)
    ensures Target(Measurement(px), 0.5, 0.5) == Finite(4.0 * (140.75 / 4.0 / 255.0) + 0.25)
    ensures Smooth(Finite(0.5), Target(Measurement(px), 0.5, 0.5), 0.6) == Finite(0.3 + 0.4 * (4.0 * (140.75 / 4.0 / 255.0) + 0.25))
  {
    assert ReadsInBounds(|px|) && CompleteSamples(|px|) == 1;
    assert CompleteSum(px) == Luma(100, 150, 200) == 140.75;
  }
}
