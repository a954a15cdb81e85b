/** Bookkeeping of itk::ResampleImageFilter (the local copy in
    BRAINSSuperResolution): the per-component output clamp, the choice of output
    geometry, the modification time, the default-pixel initialisation and the
    per-pixel choice among interpolated, extrapolated and default values on the
    general and the linear path.

    Interpolator and extrapolator evaluation, IsInsideBuffer and the mapping of an
    output pixel through the transform to a continuous input index are toolkit
    calls; they appear as function values. Pixels are sequences of real
    components; the casts between component types are the identity here. */
module ResampleImageFilter {
  import opened Common

  /** A continuous index into the input image. */
  type ContinuousIndex = seq<real>

  /** A pixel as its components. */
  type Pixel = seq<real>

  /** Geometry of an image: largest possible region (start index and size),
      spacing, origin and direction matrix. */
  datatype Geometry = Geometry(index: seq<int>, size: seq<nat>, spacing: seq<real>, origin: seq<real>,
                               direction: seq<seq<real>>)

  /** An interpolator object: its modification time, its buffer test and its
      evaluation at a continuous index. */
  datatype Interpolator = Interpolator(mTime: nat, isInsideBuffer: ContinuousIndex -> bool,
                                       evaluate: ContinuousIndex -> Pixel)

  /** An extrapolator object: its evaluation at a continuous index. */
  datatype Extrapolator = Extrapolator(evaluate: ContinuousIndex -> Pixel)

  datatype TransformCategory = Linear | BSpline | Spline | DisplacementField | VelocityField | UnknownTransformCategory

  datatype Error = InterpolatorNotSet

  // ---------------------------------------------------------------------------
  // Clamp

  /** One component cast with bounds checking: below min gives min, above max gives
      max, anything else passes through. */
  function ClampComponent(c: real, minComponent: real, maxComponent: real): (r: real)
    ensures minComponent <= maxComponent ==> minComponent <= r <= maxComponent
    ensures minComponent <= c <= maxComponent ==> r == c
    ensures c < minComponent ==> r == minComponent
  {
    if c < minComponent then minComponent else if c > maxComponent then maxComponent else c
  }

  /** The clamp applied to every component of a pixel. */
  function ClampPixel(value: Pixel, minComponent: real, maxComponent: real): (p: Pixel)
    ensures |p| == |value|
  {
    seq(|value|, n requires 0 <= n < |value| => ClampComponent(value[n], minComponent, maxComponent))
  }

  /** With min <= max the clamp lands every component in [min, max], keeps in-range
      components and is idempotent. */
  lemma ClampPixelProperties(value: Pixel, minComponent: real, maxComponent: real)
    requires minComponent <= maxComponent
    ensures var p := ClampPixel(value, minComponent, maxComponent);
      (forall n :: 0 <= n < |p| ==> minComponent <= p[n] <= maxComponent) &&
      ClampPixel(p, minComponent, maxComponent) == p
  {
    var p := ClampPixel(value, minComponent, maxComponent);
    forall n | 0 <= n < |p|
      ensures ClampPixel(p, minComponent, maxComponent)[n] == p[n]
    {
      assert minComponent <= p[n] <= maxComponent;
    }
  }

  /** A pixel whose components already lie in [min, max] is returned unchanged. */
  lemma ClampPixelKeepsInRange(value: Pixel, minComponent: real, maxComponent: real)
    requires forall n :: 0 <= n < |value| ==> minComponent <= value[n] <= maxComponent
    ensures ClampPixel(value, minComponent, maxComponent) == value
  {
  }

  /** CastPixelWithBoundsChecking: builds the output pixel component by component. */
  method CastPixelWithBoundsChecking(value: Pixel, minComponent: real, maxComponent: real) returns (outputValue: Pixel)
    ensures |outputValue| == |value|
    ensures forall n :: 0 <= n < |value| ==>
      (value[n] < minComponent ==> outputValue[n] == minComponent) &&
      (minComponent <= value[n] && value[n] > maxComponent ==> outputValue[n] == maxComponent) &&
      (minComponent <= value[n] <= maxComponent ==> outputValue[n] == value[n])
    ensures outputValue == ClampPixel(value, minComponent, maxComponent)
  {
    outputValue := [];
    var n := 0;
    while n < |value|
      invariant 0 <= n <= |value|
      invariant outputValue == ClampPixel(value[..n], minComponent, maxComponent)
    {
      var component := value[n];
      if component < minComponent {
        outputValue := outputValue + [minComponent];
      } else if component > maxComponent {
        outputValue := outputValue + [maxComponent];
      } else {
        outputValue := outputValue + [component];
      }
      n := n + 1;
    }
    assert value[..n] == value;
  }

  // ---------------------------------------------------------------------------
  // Per-pixel selection

  /** The inside test of the general path: the interpolator's buffer test and, for a
      special-coordinates input, the transform's own inside verdict. */
  predicate NonlinearInside(interpolator: Interpolator, index: ContinuousIndex,
                            isSpecialCoordinatesImage: bool, isInsideInput: bool) {
    interpolator.isInsideBuffer(index) && (!isSpecialCoordinatesImage || isInsideInput)
  }

  /** The inside test of the linear path: the interpolator's buffer test only. */
  predicate LinearInside(interpolator: Interpolator, index: ContinuousIndex) {
    interpolator.isInsideBuffer(index)
  }

  /** The value written for one output pixel given the inside verdict. */
  function SelectPixel(inside: bool, index: ContinuousIndex, interpolator: Interpolator,
                       extrapolator: Option<Extrapolator>, defaultPixel: Pixel,
                       minComponent: real, maxComponent: real): (p: Pixel)
    ensures inside ==> p == ClampPixel(interpolator.evaluate(index), minComponent, maxComponent)
    ensures !inside && extrapolator.Some? ==> p == ClampPixel(extrapolator.value.evaluate(index), minComponent, maxComponent)
    ensures !inside && extrapolator.None? ==> p == defaultPixel
  {
    if inside then ClampPixel(interpolator.evaluate(index), minComponent, maxComponent)
    else if extrapolator.Some? then ClampPixel(extrapolator.value.evaluate(index), minComponent, maxComponent)
    else defaultPixel
  }

  /** An interpolated or extrapolated pixel lies within [min, max] componentwise;
      only the default pixel can lie outside. */
  lemma SelectedPixelInRange(inside: bool, index: ContinuousIndex, interpolator: Interpolator,
                             extrapolator: Option<Extrapolator>, defaultPixel: Pixel,
                             minComponent: real, maxComponent: real)
    requires minComponent <= maxComponent
    requires inside || extrapolator.Some?
    ensures var p := SelectPixel(inside, index, interpolator, extrapolator, defaultPixel, minComponent, maxComponent);
      forall n :: 0 <= n < |p| ==> minComponent <= p[n] <= maxComponent
  {
    if inside {
      ClampPixelProperties(interpolator.evaluate(index), minComponent, maxComponent);
    } else {
      ClampPixelProperties(extrapolator.value.evaluate(index), minComponent, maxComponent);
    }
  }

  /** The fast path is taken exactly when neither image is a special-coordinates
      image and the transform is linear. */
  predicate UsesLinearPath(inputIsSpecial: bool, outputIsSpecial: bool, category: TransformCategory) {
    !inputIsSpecial && !outputIsSpecial && category == Linear
  }

  /** Whenever the fast path is chosen, it writes what the general path would: with a
      non-special input the two inside tests agree. */
  lemma LinearPathAgreesWithGeneralPath(inputIsSpecial: bool, outputIsSpecial: bool, category: TransformCategory,
                                        index: ContinuousIndex, isInsideInput: bool, interpolator: Interpolator,
                                        extrapolator: Option<Extrapolator>, defaultPixel: Pixel,
                                        minComponent: real, maxComponent: real)
    requires UsesLinearPath(inputIsSpecial, outputIsSpecial, category)
    ensures SelectPixel(LinearInside(interpolator, index), index, interpolator, extrapolator, defaultPixel, minComponent, maxComponent)
         == SelectPixel(NonlinearInside(interpolator, index, inputIsSpecial, isInsideInput), index, interpolator,
                        extrapolator, defaultPixel, minComponent, maxComponent)
  {
  }

  // ---------------------------------------------------------------------------
  // The filter

  class ResampleFilter {
    var outputOrigin: seq<real>
    var outputSpacing: seq<real>
    var outputDirection: seq<seq<real>>
    var useReferenceImage: bool
    var size: seq<nat>
    var outputStartIndex: seq<int>
    var interpolator: Option<Interpolator>
    var extrapolator: Option<Extrapolator>
    var defaultPixelValue: Pixel
    /** The modification time of the filter object itself. */
    var objectMTime: nat

    /** Defaults: origin 0, spacing 1, identity direction, no reference image, size
        and start index 0, the given linear interpolator, no extrapolator and a
        zero-length default pixel. */
    constructor (dimension: nat, linearInterpolator: Interpolator)
      ensures |outputOrigin| == dimension && forall d :: 0 <= d < dimension ==> outputOrigin[d] == 0.0
      ensures |outputSpacing| == dimension && forall d :: 0 <= d < dimension ==> outputSpacing[d] == 1.0
      ensures |outputDirection| == dimension && forall r :: 0 <= r < dimension ==>
        |outputDirection[r]| == dimension &&
        forall c :: 0 <= c < dimension ==> outputDirection[r][c] == if r == c then 1.0 else 0.0
      ensures !useReferenceImage
      ensures |size| == dimension && forall d :: 0 <= d < dimension ==> size[d] == 0
      ensures |outputStartIndex| == dimension && forall d :: 0 <= d < dimension ==> outputStartIndex[d] == 0
      ensures interpolator == Some(linearInterpolator) && extrapolator == None && defaultPixelValue == []
      ensures objectMTime == 0
    {
      outputOrigin := seq(dimension, _ => 0.0);
      outputSpacing := seq(dimension, _ => 1.0);
      outputDirection := seq(dimension, r => seq(dimension, c => if r == c then 1.0 else 0.0));
      useReferenceImage := false;
      size := seq(dimension, _ => 0);
      outputStartIndex := seq(dimension, _ => 0);
      interpolator := Some(linearInterpolator);
      extrapolator := None;
      defaultPixelValue := [];
      objectMTime := 0;
    }

    /** The geometry the filter's own parameters describe. */
    function OwnGeometry(): Geometry
      reads this
    {
      Geometry(outputStartIndex, size, outputSpacing, outputOrigin, outputDirection)
    }

    /** SetOutputParametersFromImage: copies origin, spacing, direction, start index
        and size of the image through their setters, so that the filter's own
        geometry is the image's. Each setter marks the filter modified when its
        value changes, so the filter's time advances exactly when the geometry
        does. */
    method SetOutputParametersFromImage(image: Geometry)
      modifies this`outputOrigin, this`outputSpacing, this`outputDirection, this`outputStartIndex, this`size,
               this`objectMTime
      ensures OwnGeometry() == image
      ensures useReferenceImage == old(useReferenceImage) && interpolator == old(interpolator)
      ensures extrapolator == old(extrapolator) && defaultPixelValue == old(defaultPixelValue)
      ensures old(OwnGeometry()) != image ==> objectMTime > old(objectMTime)
      ensures old(OwnGeometry()) == image ==> objectMTime == old(objectMTime)
    {
      if outputOrigin != image.origin {
        outputOrigin := image.origin;
        objectMTime := objectMTime + 1;
      }
      if outputSpacing != image.spacing {
        outputSpacing := image.spacing;
        objectMTime := objectMTime + 1;
      }
      if outputDirection != image.direction {
        outputDirection := image.direction;
        objectMTime := objectMTime + 1;
      }
      if outputStartIndex != image.index {
        outputStartIndex := image.index;
        objectMTime := objectMTime + 1;
      }
      if size != image.size {
        size := image.size;
        objectMTime := objectMTime + 1;
      }
    }

    /** GenerateOutputInformation: the output region, spacing, origin and direction
        come from the reference image when one is used and present, and from the
        filter's own parameters otherwise. */
    function OutputInformation(referenceImage: Option<Geometry>): (g: Geometry)
      reads this
      ensures useReferenceImage && referenceImage.Some? ==> g == referenceImage.value
      ensures !(useReferenceImage && referenceImage.Some?) ==>
        g.index == outputStartIndex && g.size == size && g.spacing == outputSpacing &&
        g.origin == outputOrigin && g.direction == outputDirection
    {
      if useReferenceImage && referenceImage.Some? then referenceImage.value else OwnGeometry()
    }

    /** GetMTime: the later of the filter's own time and its interpolator's. */
    function MTime(): (t: nat)
      reads this
      ensures t >= objectMTime
      ensures interpolator.Some? ==> t >= interpolator.value.mTime
      ensures t == objectMTime || (interpolator.Some? && t == interpolator.value.mTime)
    {
      if interpolator.Some? && objectMTime < interpolator.value.mTime then interpolator.value.mTime else objectMTime
    }

    /** BeforeThreadedGenerateData: fails without an interpolator; a zero-length
        default pixel becomes a pixel of the input's component count, all zero; a
        default pixel that has components is kept. */
    method BeforeThreadedGenerateData(inputComponents: nat) returns (outcome: Outcome<Error>)
      modifies this`defaultPixelValue
      ensures outcome.Fail? <==> old(interpolator).None?
      ensures outcome.Fail? ==> outcome.error == InterpolatorNotSet && defaultPixelValue == old(defaultPixelValue)
      ensures outcome.Pass? && old(|defaultPixelValue|) == 0 ==>
        |defaultPixelValue| == inputComponents && forall n :: 0 <= n < inputComponents ==> defaultPixelValue[n] == 0.0
      ensures outcome.Pass? && old(|defaultPixelValue|) != 0 ==> defaultPixelValue == old(defaultPixelValue)
    {
      if interpolator.None? {
        return Fail(InterpolatorNotSet);
      }
      if |defaultPixelValue| == 0 {
        var p: Pixel := [];
        var n := 0;
        while n < inputComponents
          invariant 0 <= n <= inputComponents
          invariant |p| == n && forall k :: 0 <= k < n ==> p[k] == 0.0
        {
          p := p + [0.0];
          n := n + 1;
        }
        defaultPixelValue := p;
      }
      outcome := Pass;
    }

    /** The general path over the output pixels: pixel i maps through the transform
        to continuous index mapped(i).0, with mapped(i).1 the input's own inside
        verdict. */
    method NonlinearThreadedGenerateData(isSpecialCoordinatesImage: bool, mapped: nat -> (ContinuousIndex, bool),
                                         minComponent: real, maxComponent: real, out: array<Pixel>)
      requires interpolator.Some?
      modifies out
      ensures forall i :: 0 <= i < out.Length ==>
        out[i] == SelectPixel(NonlinearInside(interpolator.value, mapped(i).0, isSpecialCoordinatesImage, mapped(i).1),
                              mapped(i).0, interpolator.value, extrapolator, defaultPixelValue, minComponent, maxComponent)
    {
      var interp := interpolator.value;
      var i := 0;
      while i < out.Length
        invariant 0 <= i <= out.Length
        invariant forall k :: 0 <= k < i ==>
          out[k] == SelectPixel(NonlinearInside(interp, mapped(k).0, isSpecialCoordinatesImage, mapped(k).1),
                                mapped(k).0, interp, extrapolator, defaultPixelValue, minComponent, maxComponent)
      {
        var (inputIndex, isInsideInput) := mapped(i);
        var pixval: Pixel;
        if interp.isInsideBuffer(inputIndex) && (!isSpecialCoordinatesImage || isInsideInput) {
          pixval := CastPixelWithBoundsChecking(interp.evaluate(inputIndex), minComponent, maxComponent);
        } else if extrapolator.None? {
          pixval := defaultPixelValue;
        } else {
          pixval := CastPixelWithBoundsChecking(extrapolator.value.evaluate(inputIndex), minComponent, maxComponent);
        }
        out[i] := pixval;
        i := i + 1;
      }
    }

    /** The linear path over the output pixels: the inside test is the buffer test
        alone. */
    method LinearThreadedGenerateData(mapped: nat -> (ContinuousIndex, bool),
                                      minComponent: real, maxComponent: real, out: array<Pixel>)
      requires interpolator.Some?
      modifies out
      ensures forall i :: 0 <= i < out.Length ==>
        out[i] == SelectPixel(LinearInside(interpolator.value, mapped(i).0), mapped(i).0, interpolator.value,
                              extrapolator, defaultPixelValue, minComponent, maxComponent)
    {
      var interp := interpolator.value;
      var defaultValue := defaultPixelValue;
      var i := 0;
      while i < out.Length
        invariant 0 <= i <= out.Length
        invariant forall k :: 0 <= k < i ==>
          out[k] == SelectPixel(LinearInside(interp, mapped(k).0), mapped(k).0, interp,
                                extrapolator, defaultValue, minComponent, maxComponent)
      {
        var inputIndex := mapped(i).0;
        var pixval: Pixel;
        if interp.isInsideBuffer(inputIndex) {
          pixval := CastPixelWithBoundsChecking(interp.evaluate(inputIndex), minComponent, maxComponent);
        } else if extrapolator.None? {
          pixval := defaultValue;
        } else {
          pixval := CastPixelWithBoundsChecking(extrapolator.value.evaluate(inputIndex), minComponent, maxComponent);
        }
        out[i] := pixval;
        i := i + 1;
      }
    }

    /** ThreadedGenerateData: dispatches to the linear path exactly when neither
        image is special and the transform is linear; either way every pixel is what
        the general path's rule gives. */
    method ThreadedGenerateData(inputIsSpecial: bool, outputIsSpecial: bool, category: TransformCategory,
                                mapped: nat -> (ContinuousIndex, bool),
                                minComponent: real, maxComponent: real, out: array<Pixel>)
      requires interpolator.Some?
      modifies out
      ensures forall i :: 0 <= i < out.Length ==>
        out[i] == SelectPixel(NonlinearInside(interpolator.value, mapped(i).0, inputIsSpecial, mapped(i).1),
                              mapped(i).0, interpolator.value, extrapolator, defaultPixelValue, minComponent, maxComponent)
    {
      if !inputIsSpecial && !outputIsSpecial && category == Linear {
        LinearThreadedGenerateData(mapped, minComponent, maxComponent, out);
        forall i | 0 <= i < out.Length
          ensures out[i] == SelectPixel(NonlinearInside(interpolator.value, mapped(i).0, inputIsSpecial, mapped(i).1),
                                        mapped(i).0, interpolator.value, extrapolator, defaultPixelValue, minComponent, maxComponent)
        {
          LinearPathAgreesWithGeneralPath(inputIsSpecial, outputIsSpecial, category, mapped(i).0, mapped(i).1,
                                          interpolator.value, extrapolator, defaultPixelValue, minComponent, maxComponent);
        }
        return;
      }
      NonlinearThreadedGenerateData(inputIsSpecial, mapped, minComponent, maxComponent, out);
    }
  }
}
