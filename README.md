# Illumination estimation, modelled in Dafny

`IlluminationEstimation` is a Unity component for a Vuforia AR application.
On tracker updates it looks at the camera image's raw bytes. It estimates
the scene's brightness and drives an ambient `Light`'s intensity towards
that estimate, so virtual objects are lit like the real scene.

This project models the component's own logic. The SDK's answers become
parameters, and the light's intensity becomes a field.

- **Gating.** `pixelFormatSetted` and `canGetCameraImage` must both be true
  for a tracker update to do anything.
- **Frame-skip scheduling.** The 32-bit counter `frameCount` decides which
  gated updates take a new estimate. For `skipFrames >= 1` and calls that do
  not throw, that is once every `skipFrames` gated updates, starting with the
  first one. For `skipFrames` in (minimum int, 0] every gated update
  estimates. For the minimum int the counter wraps to the maximum int after
  the first estimate. So the code skips `skipFrames - 1` gated updates between
  two estimates, one fewer than the field's tooltip ("Number of frames to
  skip between lights estimations") says; the model follows the code.
- **Subsampling.** The loop visits byte offsets 0, 64, 128, … below the buffer
  length (with an unbounded loop index; see "## Left out"). At each offset it reads three bytes and adds their luma
  (0.299 R + 0.587 G + 0.114 B).
- **Normalising.** The sum is divided by the integer `pixels.Length / 16` and
  then by 255.
- **Target.** The target is `8 * measurement * weight + initial * (1 - weight)`,
  floored at 0.
- **Smoothing.** The light becomes `intensity * damping + target * (1 - damping)`.
  `countedIllumination` always equals the light's intensity after `Start`.
- **Lifecycle.** `OnVuforiaStarted`, `OnPause` and `RegisterFormat` set the
  flags from the SDK's boolean answers. `UnregisterFormat` clears
  `pixelFormatSetted` whatever the SDK answers.

Floats are modelled over `real`, with one more value, `Num.NonFinite`. It
stands for an infinity or NaN, which IEEE division by zero produces. Every
later step carries it along.

Two edge cases of the code are modelled exactly as written:

- **Buffers of 3 to 15 bytes.** The integer normaliser is 0 here, and a C#
  `double` division by zero does not throw. The light's intensity becomes
  non-finite and stays that way (`Filter.Measurement`, `Filter.Smooth`).
- **Lengths of 1 or 2 modulo 64.** The last loop iteration reads past the
  end and throws `IndexOutOfRangeException` (`Outcome.IndexOutOfRange`). The
  counter is then left at `skipFrames`, not decremented. The buffer and the
  partial sum are stored, and the light is unchanged.

The stride (64) and the normaliser (`length / 16`) are fixed in the code,
and the loop has no bounds guard.

Files, one module each:

- `sampling.dfy`: module `Sampling`, the walk over the byte buffer.
- `filter.dfy`: module `Filter`, measurement, target and smoothing.
- `frame_schedule.dfy`: module `FrameSchedule`, the frame counter.
- `illumination_estimation.dfy`: module `Illumination`, the class
  `IlluminationEstimation` and its callbacks.

Helper functions without contracts (`Offset`, `SampleCount`,
`CompleteSamples`, `ReadsInBounds`, `Blend`, `Smoothed`, `Power`, `Settle`,
`EstimateDue`, `NextFrameCount`, `FrameCountAfter`, `HasPixels`) name the
quantities the contracts below talk about. Helper lemmas of real arithmetic
(`NonNegativeFactor`, `Scale`, `NonNegativeProduct`, `Positive`,
`GeometricStep`) and the two halves of `SmoothedBetween` (`RisesTowards`,
`FallsTowards`) carry single proof steps and have no row.

## Model

| member | source | states |
|---|---|---|
| Sampling.Luma | IlluminationEstimation.cs:104-106 | the luminance of a pixel lies in [0, 255]; a grey pixel (r = g = b) has luminance r |
| Sampling.LumaAt | IlluminationEstimation.cs:106 | the luminance read by iteration k, from bytes 64 k, 64 k + 1 and 64 k + 2, lies in [0, 255] |
| Sampling.PartialSum | IlluminationEstimation.cs:102-107 | the sum of the first k samples lies in [0, 255 k] |
| Sampling.VisitedOffsets | IlluminationEstimation.cs:102 | with an unbounded loop index, the loop takes iteration k (offset 64 k) exactly when 64 k < length, i.e. exactly ceil(length / 64) iterations |
| Sampling.SafeReads | IlluminationEstimation.cs:106 | the reads p, p + 1, p + 2 of iteration k are all in bounds exactly when k < CompleteSamples(length) |
| Sampling.ReadsInBoundsExactly | IlluminationEstimation.cs:102-106 | with an unbounded loop index, every read of every iteration is in bounds exactly when length mod 64 is neither 1 nor 2; otherwise only the last iteration faults |
| Sampling.SampleCounts | IlluminationEstimation.cs:102-106 | the loop takes as many iterations as it completes, or one more; exactly as many when length mod 64 is neither 1 nor 2 |
| Sampling.CompleteSum | IlluminationEstimation.cs:98-107 | the sum over the samples read in bounds lies in [0, 255 times their number], and when every read is in bounds at most 255 per iteration of the loop |
| Sampling.BlackSamplesSumToZero | IlluminationEstimation.cs:102-107 | samples that are all black sum to 0 |
| Sampling.WhiteSamplesSumToMaximum | IlluminationEstimation.cs:102-107 | samples that are all white sum to 255 per sample |
| Filter.Divide | IlluminationEstimation.cs:109-110 | the quotient is finite exactly when the dividend is finite and the divisor nonzero |
| Filter.DivideInverse | IlluminationEstimation.cs:109-110 | a finite quotient times the divisor gives back the dividend |
| Filter.Normaliser | IlluminationEstimation.cs:109 | the integer divisor length / 16 is zero exactly for buffers shorter than 16 bytes, and 16 times it lies in (length - 16, length] |
| Filter.Normalise | IlluminationEstimation.cs:109-110 | dividing a sum by length / 16 and by 255 gives a finite value exactly when the buffer holds at least 16 bytes |
| Filter.NormaliseBounds | IlluminationEstimation.cs:109-110 | a sum of at most 255 per unit of the normaliser normalises to a value in [0, 1] |
| Filter.SamplesWithinNormaliser | IlluminationEstimation.cs:102-109 | for 16 bytes or more, the loop's ceil(length / 64) iterations are at least one and at most length / 16 |
| Filter.Measurement | IlluminationEstimation.cs:109-110 | the normalised luminance is finite exactly when the buffer holds at least 16 bytes |
| Filter.MeasurementBounds | IlluminationEstimation.cs:102-110 | a finite measurement lies in [0, 1] |
| Filter.Target | IlluminationEstimation.cs:111-116 | the target is finite exactly when the measurement is; it is at least 0, at least the blend, and equal to 0 or to the blend |
| Filter.ZeroWeightIgnoresImage | IlluminationEstimation.cs:111-116 | with weight 0 the target is the same for every finite measurement (every image of at least 16 bytes whose reads are in bounds): the initial intensity floored at 0 |
| Filter.TargetMonotonic | IlluminationEstimation.cs:111-116 | for a weight in [0, 1], a brighter measurement never yields a lower target |
| Filter.MeasuredTargetBounded | IlluminationEstimation.cs:102-116 | for a weight in [0, 1], the target of any buffer of 16 bytes or more whose reads are in bounds lies between 0 and the target of the measurement 1 |
| Filter.TargetNotCapped | IlluminationEstimation.cs:111-116 | with weight 1 the target is 8 times the measurement: there is no upper clamp |
| Filter.Smooth | IlluminationEstimation.cs:121 | the smoothed value is finite exactly when both the current intensity and the target are finite |
| Filter.SmoothingContracts | IlluminationEstimation.cs:121 | one smoothing step multiplies the distance to the target by damping |
| Filter.SmoothedBetween | IlluminationEstimation.cs:121-122 | for damping in [0, 1], the new intensity lies between the old intensity and the target |
| Filter.SmoothedFixedPoint | IlluminationEstimation.cs:121 | for damping below 1, an intensity is unchanged by smoothing exactly when it equals the target |
| Filter.SmoothSelf | IlluminationEstimation.cs:121-122 | smoothing towards the current intensity leaves it unchanged, finite or not |
| Filter.SettleGeometric | IlluminationEstimation.cs:121-122 | after n steps towards a fixed target, the distance to the target is damping^n times the initial distance |
| Filter.PowerDecreasing | IlluminationEstimation.cs:19-22 | for damping in [0, 1], damping^n stays in [0, 1] and never grows with n |
| Filter.BlackImageTarget | IlluminationEstimation.cs:102-116 | an image of at least 16 bytes whose reads are in bounds and whose samples are all black measures 0, so its target is initial * (1 - weight) floored at 0 |
| Filter.ShortImageNotIgnored | IlluminationEstimation.cs:109-116 | an image of 3 to 15 bytes has all its reads in bounds but is divided by 0, so its measurement and its target are non-finite for every weight, weight 0 included |
| Filter.WorkedExample | IlluminationEstimation.cs:102-122 | concrete values of the measurement, target and smoothed light for one 64-byte buffer |
| FrameSchedule.Decrement | IlluminationEstimation.cs:124 | `frameCount--` yields x - 1 modulo 2^32, and a smaller value unless x is the minimum int |
| FrameSchedule.FrameCountInRound | IlluminationEstimation.cs:89-124 | with skipFrames >= 1, after q skipFrames + r gated calls the counter is 0 if r = 0 and skipFrames - r otherwise |
| FrameSchedule.EstimateEverySkipFrames | IlluminationEstimation.cs:87-124 | with skipFrames >= 1, gated call n (counted from 0) takes an estimate exactly when n mod skipFrames = 0 |
| FrameSchedule.NonPositiveSkipEstimatesAlways | IlluminationEstimation.cs:89-124 | with skipFrames in (minimum int, 0], every gated call takes an estimate |
| FrameSchedule.MinimumSkipWraps | IlluminationEstimation.cs:124 | with skipFrames equal to the minimum int, the counter wraps to the maximum int, so the next 2^31 - 1 gated calls take no estimate |
| Illumination.IlluminationEstimation.constructor | IlluminationEstimation.cs:17-41 | the fields start at their declared initial values; the tunables must lie in [0, 1] |
| Illumination.IlluminationEstimation.WithDefaults | IlluminationEstimation.cs:17-26 | the inspector defaults: weight 1, damping 0.6, skipFrames 5 |
| Illumination.IlluminationEstimation.Start | IlluminationEstimation.cs:43-59 | the initial and counted illumination become the light's intensity; the callbacks are registered; nothing else changes |
| Illumination.IlluminationEstimation.OnVuforiaStarted | IlluminationEstimation.cs:64-80 | pixelFormatSetted becomes the SDK's answer; canGetCameraImage becomes true only if the format was set and an image was returned, and otherwise keeps its value |
| Illumination.IlluminationEstimation.OnTrackablesUpdated | IlluminationEstimation.cs:85-126 | without both flags nothing changes; otherwise the counter follows NextFrameCount; a call with no new target leaves the light as it was; a read past the end leaves the counter at skipFrames and the light unchanged; an estimate smooths the light towards Target(Measurement(pixels)); countedIllumination equals the light afterwards |
| Illumination.IlluminationEstimation.SumLuminance | IlluminationEstimation.cs:102-107 | the loop fails exactly when length mod 64 is 1 or 2, and leaves totalIllumination at the sum of the samples read in bounds |
| Illumination.IlluminationEstimation.OnPause | IlluminationEstimation.cs:129-139 | pause clears pixelFormatSetted, and resume sets it to the SDK's answer; nothing else changes |
| Illumination.IlluminationEstimation.RegisterFormat | IlluminationEstimation.cs:142-152 | pixelFormatSetted becomes the SDK's answer; nothing else changes |
| Illumination.IlluminationEstimation.UnregisterFormat | IlluminationEstimation.cs:155-159 | pixelFormatSetted becomes false whatever the SDK answers; nothing else changes |

## Left out

- The Vuforia and Unity calls are not modelled: callback registration (reduced to one flag), `CameraDevice.SetFrameFormat`, `GetCameraImage` and the `Light` component. Their behaviour lives in libraries that are not part of this model. Their answers are callback parameters, and the light's intensity is a field.
- The build-time choice of `PIXEL_FORMAT` (GRAYSCALE in the editor, RGB888 on devices) is not modelled. It is a constant with no logic.
- Exact IEEE `float`/`double` rounding of the luma weights, the divisions, the `(float)` cast and the smoothing is not modelled. Values are real numbers. Infinities and NaN are one value, `NonFinite`, and no bit-exact result is claimed.
- An exception escaping the callback is modelled as the `IndexOutOfRange` outcome with the state at the throw. What the engine does with the exception afterwards is not modelled.
- The asynchronous estimation and colour-temperature ideas in the file's header comment are not implemented in the source, so they are not modelled.
- Inspector attributes (`SerializeField`, `Tooltip`, `Range`) are not modelled. The `[0, 1]` ranges of the weight and the damping are preconditions of the constructors.
- The frame-schedule lemmas cover the counter only for calls that run to the end. A read past the end leaves the counter at `skipFrames`, not decremented; the method's contract states this, but no lemma about the schedule includes it. For `skipFrames >= 1` the next estimate then comes one gated call later. For `skipFrames` in (minimum int, 0] the next call still estimates. For the minimum int the counter stays at the minimum int instead of wrapping, so the next call estimates again, 2^31 - 1 calls earlier than after a call that runs to the end.
- Weight 0 does not make the light ignore the camera: an image of 3 to 15 bytes still makes the target, and so the light, non-finite (`Filter.ShortImageNotIgnored`). The model states this as the code behaves and promises `ZeroWeightIgnoresImage` only for finite measurements.
- SumLuminance: the loop index `p` is modelled as an unbounded integer, not a 32-bit `int`. In the source, a buffer longer than 2^31 - 64 bytes has the offset 2^31 - 64 visited; `p += 64` then wraps `p` to -2^31, which is still below the length, and the next read `pixels[p]` throws `IndexOutOfRangeException`. For those lengths that are not 1 or 2 modulo 64 the model instead reports `ReadsInBounds` (lengths that are 1 or 2 modulo 64 throw at their last iteration before any wrap, in the model and in the source alike). No camera frame is that large. `Sampling.VisitedOffsets`, `Sampling.ReadsInBoundsExactly` and `Sampling.SampleCounts` describe the loop with an unbounded index too.
- OnTrackablesUpdated: for the same buffers longer than 2^31 - 64 bytes the source throws where the model returns `Estimated`, because of the unbounded loop index above.
- The model assumes this component is the only writer of `ambientLight.intensity`: the light's intensity is a field of the class. If another script or the engine changes the light between callbacks, the source's smoothing line pulls the light back towards the stale `countedIllumination`, even on a call with no new estimate. The model does not capture that: its `Valid()` invariant `countedIllumination == lightIntensity` and the promise that a held call leaves the light unchanged hold only when nothing else writes the light.
