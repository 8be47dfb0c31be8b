/** The `IlluminationEstimation` component: it samples the camera image on
    every skipFrames-th tracker update and drives the ambient light's
    intensity towards the estimated scene brightness. The AR SDK's answers
    (whether a frame format could be set, whether and which camera image is
    available) are parameters of the callbacks, and the light's intensity is
    a field. */
module Illumination {
  import opened Sampling
  import opened Filter
  import opened FrameSchedule

  datatype Option<T> = None | Some(value: T)

  /** A camera image as the SDK hands it over: its `Pixels` array may be null. */
  datatype CameraImage = CameraImage(pixels: Option<seq<byte>>)

  /** How a tracker-update callback ended. */
  datatype Outcome =
    | NotReady          // the frame format is not set or no camera image can be had: nothing happens
    | Held              // no new target (skipped frame, no image, no pixels): only the smoothing step runs
    | Estimated         // a new target was computed and the light smoothed towards it
    | IndexOutOfRange   // the sampling loop read past the end of the pixel buffer and threw

  /** Whether the SDK's image holds a non-empty pixel buffer. */
  predicate HasPixels(image: Option<CameraImage>)
  {
    image.Some? && image.value.pixels.Some? && |image.value.pixels.value| > 0
  }

  /** The inspector defaults of the three tunables. */
  const DefaultAmbientLightWeight: real := 1.0
  const DefaultDamping: real := 0.6
  const DefaultSkipFrames: Int32 := 5

  class IlluminationEstimation {
    /** How much the scene measurement moves the target away from the initial intensity. */
    const ambientLightWeight: real
    /** Inertia of the light: the share of the current intensity kept by each smoothing step. */
    const damping: real
    /** Number of gated callbacks between two estimates. */
    const skipFrames: Int32

    var canGetCameraImage: bool
    var pixelFormatSetted: bool
    var pixels: Option<seq<byte>>
    var initialIllumination: real
    var countedIllumination: Num
    var totalIllumination: Num
    var frameCount: Int32
    /** `ambientLight.intensity`, the intensity of the controlled light. */
    var lightIntensity: Num
    /** Whether Start has registered the three SDK callbacks. */
    var callbacksRegistered: bool

    /** The tunables lie in the inspector's ranges; the light is finite until
        Start reads it, and from then on the counted illumination is always
        the light's intensity. */
    ghost predicate Valid()
      reads this
    {
      0.0 <= ambientLightWeight <= 1.0 && 0.0 <= damping <= 1.0 &&
      (!callbacksRegistered ==> lightIntensity.Finite?) &&
      (callbacksRegistered ==> countedIllumination == lightIntensity)
    }

    /** The component as the engine creates it, with its fields at their
        declared initial values and the light at the given intensity. */
    constructor (ambientLightWeight: real, damping: real, skipFrames: Int32, lightIntensity: real)
      requires 0.0 <= ambientLightWeight <= 1.0 && 0.0 <= damping <= 1.0
      ensures Valid() && !callbacksRegistered
      ensures this.ambientLightWeight == ambientLightWeight && this.damping == damping && this.skipFrames == skipFrames
      ensures this.lightIntensity == Finite(lightIntensity)
      ensures !canGetCameraImage && !pixelFormatSetted && pixels == None && frameCount == 0
      ensures initialIllumination == 0.0 && countedIllumination == Finite(0.0) && totalIllumination == Finite(0.0)
    {
      this.ambientLightWeight := ambientLightWeight;
      this.damping := damping;
      this.skipFrames := skipFrames;
      this.lightIntensity := Finite(lightIntensity);
      canGetCameraImage := false;
      pixelFormatSetted := false;
      pixels := None;
      initialIllumination := 0.0;
      countedIllumination := Finite(0.0);
      totalIllumination := Finite(0.0);
      frameCount := 0;
      callbacksRegistered := false;
    }

    /** The component with the inspector's default tunables. */
    constructor WithDefaults(lightIntensity: real)
      ensures Valid() && !callbacksRegistered
      ensures ambientLightWeight == DefaultAmbientLightWeight && damping == DefaultDamping
      ensures skipFrames == DefaultSkipFrames
      ensures this.lightIntensity == Finite(lightIntensity)
      ensures !canGetCameraImage && !pixelFormatSetted && pixels == None && frameCount == 0
      ensures initialIllumination == 0.0 && countedIllumination == Finite(0.0) && totalIllumination == Finite(0.0)
    {
      ambientLightWeight := DefaultAmbientLightWeight;
      damping := DefaultDamping;
      skipFrames := DefaultSkipFrames;
      this.lightIntensity := Finite(lightIntensity);
      canGetCameraImage := false;
      pixelFormatSetted := false;
      pixels := None;
      initialIllumination := 0.0;
      countedIllumination := Finite(0.0);
      totalIllumination := Finite(0.0);
      frameCount := 0;
      callbacksRegistered := false;
    }

    /** Reads the light's intensity as the initial illumination, starts the
        counted illumination from it and registers the callbacks. */
    method Start()
      requires Valid() && !callbacksRegistered
      modifies this`initialIllumination, this`countedIllumination, this`callbacksRegistered
      ensures Valid() && callbacksRegistered
      ensures initialIllumination == lightIntensity.value
      ensures countedIllumination == lightIntensity
    {
      initialIllumination := lightIntensity.value;
      countedIllumination := Finite(initialIllumination);
      callbacksRegistered := true;
    }

    /** Called once the SDK's camera is running. formatSet is the SDK's answer
        to setting the frame format; imageAvailable whether it then returns a
        camera image (asked only when the format was set). */
    method OnVuforiaStarted(formatSet: bool, imageAvailable: bool)
      requires Valid() && callbacksRegistered
      modifies this`pixelFormatSetted, this`canGetCameraImage
      ensures Valid()
      ensures pixelFormatSetted == formatSet
      ensures canGetCameraImage == (old(canGetCameraImage) || (formatSet && imageAvailable))
    {
      if formatSet {
        pixelFormatSetted := true;
        if imageAvailable {
          canGetCameraImage := true;
        }
      } else {
        pixelFormatSetted := false;
      }
    }

    /** Called on every tracker update. image is what the SDK's camera returns
        when this callback asks for an image (it asks only when an estimate
        is due). */
    method OnTrackablesUpdated(image: Option<CameraImage>) returns (outcome: Outcome)
      requires Valid() && callbacksRegistered
      modifies this`frameCount, this`pixels, this`totalIllumination, this`countedIllumination, this`lightIntensity
      ensures Valid()
      // Gating: without a set format and an obtainable image nothing changes.
      ensures !(pixelFormatSetted && canGetCameraImage) <==> outcome == NotReady
      ensures outcome == NotReady ==> unchanged(this)
      // Scheduling: a new estimate is only attempted when the counter is not positive.
      ensures outcome in {Estimated, IndexOutOfRange} ==> EstimateDue(old(frameCount)) && HasPixels(image)
      ensures outcome in {Held, Estimated} ==> frameCount == NextFrameCount(old(frameCount), skipFrames)
      ensures outcome == Held <==>
        pixelFormatSetted && canGetCameraImage && (!EstimateDue(old(frameCount)) || !HasPixels(image))
      // No new target: the smoothing step leaves the light as it was.
      ensures outcome == Held ==> lightIntensity == old(lightIntensity)
      ensures outcome == Held && !EstimateDue(old(frameCount)) ==>
        pixels == old(pixels) && totalIllumination == old(totalIllumination)
      ensures outcome == Held && EstimateDue(old(frameCount)) ==>
        if image.None? then pixels == old(pixels) && totalIllumination == old(totalIllumination)
        else pixels == image.value.pixels && totalIllumination == Finite(0.0)
      // A read past the end: the exception leaves the counter reset, the
      // buffer stored, the sum of the samples read so far, and the light as it was.
      ensures outcome == IndexOutOfRange <==>
        pixelFormatSetted && canGetCameraImage && EstimateDue(old(frameCount)) && HasPixels(image) &&
        !ReadsInBounds(|image.value.pixels.value|)
      ensures outcome == IndexOutOfRange ==>
        frameCount == skipFrames && pixels == image.value.pixels &&
        totalIllumination == Finite(CompleteSum(image.value.pixels.value)) &&
        lightIntensity == old(lightIntensity)
      // A new estimate: the light is smoothed towards the target of the image's measurement.
      ensures outcome == Estimated ==>
        var px := image.value.pixels.value;
        ReadsInBounds(|px|) && pixels == image.value.pixels &&
        totalIllumination == Measurement(px) &&
        lightIntensity == Smooth(old(lightIntensity), Target(Measurement(px), ambientLightWeight, initialIllumination), damping)
    {
      if pixelFormatSetted && canGetCameraImage {
        outcome := Held;
        if EstimateDue(frameCount) {
          frameCount := skipFrames;
          if image.Some? {
            pixels := image.value.pixels;
            totalIllumination := Finite(0.0);
            if pixels.Some? && |pixels.value| > 0 {
              var px := pixels.value;
              var inBounds := SumLuminance(px);
              if !inBounds {
                return IndexOutOfRange;
              }
              totalIllumination := Divide(totalIllumination, Normaliser(|px|) as real);
              totalIllumination := Divide(totalIllumination, 255.0);
              countedIllumination := Target(totalIllumination, ambientLightWeight, initialIllumination);
              outcome := Estimated;
            }
          }
        }
        SmoothSelf(lightIntensity, damping);
        countedIllumination := Smooth(lightIntensity, countedIllumination, damping);
        lightIntensity := countedIllumination;
        frameCount := Decrement(frameCount);
      } else {
        outcome := NotReady;
      }
    }

    /** The sampling loop of OnTrackablesUpdated: adds the luminance of the
        pixel at every visited offset to totalIllumination. It returns false
        when it stops at the read past the end that throws, having added
        every sample read before it. */
    method SumLuminance(px: seq<byte>) returns (inBounds: bool)
      requires totalIllumination == Finite(0.0)
      modifies this`totalIllumination
      ensures inBounds == ReadsInBounds(|px|)
      ensures totalIllumination == Finite(CompleteSum(px))
    {
      var p := 0;
      ghost var k := 0;
      while p < |px|
        invariant p == Offset(k) && k <= CompleteSamples(|px|)
        invariant totalIllumination == Finite(PartialSum(px, k))
      {
        SafeReads(|px|, k);
        if p + 2 >= |px| {
          VisitedOffsets(|px|, k);
          SampleCounts(|px|);
          return false;
        }
        totalIllumination := Finite(totalIllumination.value + Luma(px[p], px[p + 1], px[p + 2]));
        p, k := p + Stride, k + 1;
      }
      VisitedOffsets(|px|, k);
      SampleCounts(|px|);
      return true;
    }

    /** Called when the application is paused (paused) or resumed (!paused);
        formatSet is the SDK's answer to setting the frame format again on resume. */
    method OnPause(paused: bool, formatSet: bool)
      requires Valid() && callbacksRegistered
      modifies this`pixelFormatSetted
      ensures Valid()
      ensures pixelFormatSetted == (!paused && formatSet)
    {
      if paused {
        UnregisterFormat();
      } else {
        RegisterFormat(formatSet);
      }
    }

    /** Sets the camera's frame format; formatSet is the SDK's answer. */
    method RegisterFormat(formatSet: bool)
      requires Valid()
      modifies this`pixelFormatSetted
      ensures Valid()
      ensures pixelFormatSetted == formatSet
    {
      if formatSet {
        pixelFormatSetted := true;
      } else {
        pixelFormatSetted := false;
      }
    }

    /** Unsets the camera's frame format, whatever the SDK answers. */
    method UnregisterFormat()
      requires Valid()
      modifies this`pixelFormatSetted
      ensures Valid()
      ensures !pixelFormatSetted
    {
      pixelFormatSetted := false;
    }
  }
}
