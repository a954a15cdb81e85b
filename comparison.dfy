/** Tolerance comparison of a test image against a valid (baseline) image,
    as done by itk::Testing::ComparisonImageFilter.

    For every pixel the filter looks for the test-image value closest to the valid
    pixel within a neighbourhood of ToleranceRadius pixels, stopping early once a
    value is within DifferenceThreshold. Pixels whose best difference still exceeds
    the threshold are written to the difference image and counted; all others are
    written as zero. The pixel pass is modelled for one-dimensional images with the
    zero-flux Neumann boundary condition (an index outside the image reads the
    nearest edge pixel); the radius clamp is modelled for any dimension. */
module ComparisonImageFilter {
  import opened Common

  /** Value of (2^64 - 1) / 2: what `(imageSize[d] - 1) / 2` yields on an unsigned
      64-bit size of zero. */
  const WrappedHalfOfMinusOne: nat := 0x7FFF_FFFF_FFFF_FFFF

  datatype Error = DifferentBufferedRegions

  /** An image region: start index and size on every axis. */
  datatype Region = Region(index: seq<int>, size: seq<nat>)

  function Min(a: int, b: int): int { if a <= b then a else b }

  function AbsDiff(a: int, b: int): (d: nat)
    ensures d == a - b || d == b - a
  {
    if a - b < 0 then b - a else a - b
  }

  // ---------------------------------------------------------------------------
  // Radius clamp

  /** The neighbourhood width `2 * ToleranceRadius + 1`, stored in a 32-bit
      unsigned integer: the signed radius is doubled and converted with wrap-around. */
  function MinVoxelsNeeded(toleranceRadius: int): (w: nat)
    ensures w < 0x1_0000_0000
    ensures 0 <= toleranceRadius < 0x8000_0000 ==> w == 2 * toleranceRadius + 1
  {
    (toleranceRadius * 2 + 1) % 0x1_0000_0000
  }

  /** The radius the filter uses on one axis of the given size. The signed
      tolerance radius is converted to the unsigned 64-bit radius type, and the
      unsigned subtraction wraps around on an empty axis. */
  function AxisRadius(toleranceRadius: int, size: nat): nat {
    if MinVoxelsNeeded(toleranceRadius) < size then toleranceRadius % 0x1_0000_0000_0000_0000
    else if size == 0 then WrappedHalfOfMinusOne
    else (size - 1) / 2
  }

  /** Per-axis radius, clamped so that the neighbourhood fits inside the image.
      For a tolerance radius in the non-negative range of a 32-bit int, the radius on
      a non-empty axis is the tolerance radius cut down to the largest value whose
      neighbourhood (2r+1 pixels) still fits; whatever the tolerance radius, an axis
      too small for the 32-bit width gets the centred radius (size-1)/2; on an empty
      axis the unsigned subtraction wraps around. */
  method ComputeRadius(toleranceRadius: int, imageSize: seq<nat>) returns (radius: seq<nat>)
    ensures |radius| == |imageSize|
    ensures forall d :: 0 <= d < |imageSize| ==> radius[d] == AxisRadius(toleranceRadius, imageSize[d])
    ensures forall d :: 0 <= d < |imageSize| && imageSize[d] >= 1 && 0 <= toleranceRadius < 0x8000_0000 ==>
      radius[d] <= toleranceRadius && 2 * radius[d] + 1 <= imageSize[d]
    ensures forall d :: 0 <= d < |imageSize| && imageSize[d] >= 1 && 0 <= toleranceRadius < 0x8000_0000 ==>
      radius[d] == Min(toleranceRadius, (imageSize[d] - 1) / 2)
    ensures forall d :: 0 <= d < |imageSize| && 1 <= imageSize[d] <= MinVoxelsNeeded(toleranceRadius) ==>
      radius[d] == (imageSize[d] - 1) / 2 && 2 * radius[d] + 1 <= imageSize[d]
    ensures forall d :: 0 <= d < |imageSize| && imageSize[d] == 0 ==>
      radius[d] == WrappedHalfOfMinusOne
  {
    var minVoxelsNeeded := (toleranceRadius * 2 + 1) % 0x1_0000_0000;
    radius := [];
    var d := 0;
    while d < |imageSize|
      invariant 0 <= d <= |imageSize|
      invariant |radius| == d
      invariant forall e :: 0 <= e < d ==> radius[e] == AxisRadius(toleranceRadius, imageSize[e])
    {
      if minVoxelsNeeded < imageSize[d] {
        radius := radius + [toleranceRadius % 0x1_0000_0000_0000_0000];
      } else if imageSize[d] == 0 {
        radius := radius + [WrappedHalfOfMinusOne];
      } else {
        radius := radius + [(imageSize[d] - 1) / 2];
      }
      d := d + 1;
    }
  }

  /** Outside the non-negative range the 32-bit width misleads the clamp: a
      radius of -1 selects the widest centred window, while a large negative radius
      wraps to a small width and is then used as a huge unsigned radius whose window
      does not fit the axis. */
  lemma NegativeToleranceRadius()
    ensures AxisRadius(-1, 10) == 4
    ensures MinVoxelsNeeded(-0x7FFF_FFF6) == 21
    ensures AxisRadius(-0x7FFF_FFF6, 30) == 0x1_0000_0000_0000_0000 - 0x7FFF_FFF6
    ensures 2 * AxisRadius(-0x7FFF_FFF6, 30) + 1 > 30
  {
  }

  // ---------------------------------------------------------------------------
  // The per-pixel rule (one-dimensional images)

  /** Zero-flux Neumann boundary condition: an index outside [0, n) reads the
      nearest edge pixel. */
  function ClampIndex(j: int, n: nat): (k: nat)
    requires n > 0
    ensures k < n
    ensures 0 <= j < n ==> k == j
  {
    if j < 0 then 0 else if j >= n then n - 1 else j
  }

  /** The 2r+1 test-image values around pixel i, in offset order -r .. r; the
      centre pixel is at position r. */
  function Neighbourhood(test: seq<int>, i: nat, r: nat): (nb: seq<int>)
    requires i < |test|
    ensures |nb| == 2 * r + 1
    ensures nb[r] == test[i]
  {
    var nb := seq(2 * r + 1, k requires 0 <= k < 2 * r + 1 => test[ClampIndex(i + k - r, |test|)]);
    assert nb[r] == test[ClampIndex(i, |test|)];
    nb
  }

  /** Smallest absolute difference between t and the first k values of nb. */
  function MinDiffPrefix(t: int, nb: seq<int>, k: nat): int
    requires 1 <= k <= |nb|
  {
    if k == 1 then AbsDiff(t, nb[0]) else Min(MinDiffPrefix(t, nb, k - 1), AbsDiff(t, nb[k - 1]))
  }

  /** Smallest absolute difference between t and any value of nb. */
  function MinDiff(t: int, nb: seq<int>): int
    requires |nb| >= 1
  {
    MinDiffPrefix(t, nb, |nb|)
  }

  lemma {:induction false} MinDiffPrefixIsMinimum(t: int, nb: seq<int>, k: nat)
    requires 1 <= k <= |nb|
    ensures forall j :: 0 <= j < k ==> MinDiffPrefix(t, nb, k) <= AbsDiff(t, nb[j])
    ensures exists j :: 0 <= j < k && MinDiffPrefix(t, nb, k) == AbsDiff(t, nb[j])
  {
    if k > 1 {
      MinDiffPrefixIsMinimum(t, nb, k - 1);
    } else {
      assert MinDiffPrefix(t, nb, k) == AbsDiff(t, nb[0]);
    }
  }

  /** The smallest difference is a lower bound on all differences and is attained. */
  lemma MinDiffIsMinimum(t: int, nb: seq<int>)
    requires |nb| >= 1
    ensures forall j :: 0 <= j < |nb| ==> MinDiff(t, nb) <= AbsDiff(t, nb[j])
    ensures exists j :: 0 <= j < |nb| && MinDiff(t, nb) == AbsDiff(t, nb[j])
  {
    MinDiffPrefixIsMinimum(t, nb, |nb|);
  }

  /** The smallest difference exceeds the threshold exactly when every value of the
      neighbourhood differs from t by more than the threshold. */
  lemma MinDiffExceedsIff(t: int, nb: seq<int>, threshold: int)
    requires |nb| >= 1
    ensures MinDiff(t, nb) > threshold <==> forall j :: 0 <= j < |nb| ==> AbsDiff(t, nb[j]) > threshold
  {
    MinDiffIsMinimum(t, nb);
  }

  /** Pixel i lies in a boundary face: its neighbourhood reaches outside the image. */
  predicate OnBoundary(i: nat, r: nat, n: nat) {
    i < r || i + r >= n
  }

  /** Pixel i is written with its difference and counted. */
  predicate Counted(valid: seq<int>, test: seq<int>, i: nat, r: nat, threshold: int, ignoreBoundary: bool)
    requires |valid| == |test| && i < |valid|
  {
    !(ignoreBoundary && OnBoundary(i, r, |valid|)) &&
    MinDiff(valid[i], Neighbourhood(test, i, r)) > threshold
  }

  /** The value written to the difference image at pixel i. */
  function PixelDifference(valid: seq<int>, test: seq<int>, i: nat, r: nat, threshold: int, ignoreBoundary: bool): int
    requires |valid| == |test| && i < |valid|
  {
    if Counted(valid, test, i, r, threshold, ignoreBoundary)
    then MinDiff(valid[i], Neighbourhood(test, i, r))
    else 0
  }

  /** The whole difference image. */
  function DifferenceImage(valid: seq<int>, test: seq<int>, r: nat, threshold: int, ignoreBoundary: bool): (out: seq<int>)
    requires |valid| == |test|
    ensures |out| == |valid|
  {
    seq(|valid|, i requires 0 <= i < |valid| => PixelDifference(valid, test, i, r, threshold, ignoreBoundary))
  }

  /** Number of counted pixels among the first k. */
  function CountDifferences(valid: seq<int>, test: seq<int>, r: nat, threshold: int, ignoreBoundary: bool, k: nat): nat
    requires |valid| == |test| && k <= |valid|
  {
    if k == 0 then 0
    else CountDifferences(valid, test, r, threshold, ignoreBoundary, k - 1) +
         (if Counted(valid, test, k - 1, r, threshold, ignoreBoundary) then 1 else 0)
  }

  /** Sum of the differences of the counted pixels among the first k. */
  function SumDifferences(valid: seq<int>, test: seq<int>, r: nat, threshold: int, ignoreBoundary: bool, k: nat): int
    requires |valid| == |test| && k <= |valid|
  {
    if k == 0 then 0
    else SumDifferences(valid, test, r, threshold, ignoreBoundary, k - 1) +
         (if Counted(valid, test, k - 1, r, threshold, ignoreBoundary)
          then MinDiff(valid[k - 1], Neighbourhood(test, k - 1, r)) else 0)
  }

  function SumOf(s: seq<int>): int {
    if s == [] then 0 else SumOf(s[..|s| - 1]) + s[|s| - 1]
  }

  // ---------------------------------------------------------------------------
  // Properties of the per-pixel rule

  /** An output pixel is non-zero exactly when every neighbourhood value, centre
      included, differs from the valid pixel by more than the threshold (and the
      pixel is not an ignored boundary pixel); it then holds the smallest such
      difference. For a negative threshold a pixel with an exact match is still
      counted although its written value is zero. */
  lemma DifferencePixelCharacterisation(valid: seq<int>, test: seq<int>, i: nat, r: nat, threshold: int, ignoreBoundary: bool)
    requires |valid| == |test| && i < |valid| && threshold >= 0
    ensures var nb := Neighbourhood(test, i, r);
      (PixelDifference(valid, test, i, r, threshold, ignoreBoundary) != 0 <==>
        !(ignoreBoundary && OnBoundary(i, r, |valid|)) &&
        forall j :: 0 <= j < |nb| ==> AbsDiff(valid[i], nb[j]) > threshold) &&
      (PixelDifference(valid, test, i, r, threshold, ignoreBoundary) != 0 ==>
        (forall j :: 0 <= j < |nb| ==> PixelDifference(valid, test, i, r, threshold, ignoreBoundary) <= AbsDiff(valid[i], nb[j])) &&
        exists j :: 0 <= j < |nb| && PixelDifference(valid, test, i, r, threshold, ignoreBoundary) == AbsDiff(valid[i], nb[j]))
  {
    var nb := Neighbourhood(test, i, r);
    MinDiffExceedsIff(valid[i], nb, threshold);
    MinDiffIsMinimum(valid[i], nb);
  }

  /** Every output pixel is either zero or strictly above the threshold. */
  lemma DifferenceImageZeroOrAbove(valid: seq<int>, test: seq<int>, r: nat, threshold: int, ignoreBoundary: bool)
    requires |valid| == |test|
    ensures forall i :: 0 <= i < |valid| ==>
      var out := DifferenceImage(valid, test, r, threshold, ignoreBoundary);
      out[i] == 0 || out[i] > threshold
  {
  }

  /** With IgnoreBoundaryPixels on, boundary pixels are written as zero and not counted. */
  lemma IgnoredBoundaryPixelsAreZero(valid: seq<int>, test: seq<int>, i: nat, r: nat, threshold: int)
    requires |valid| == |test| && i < |valid| && OnBoundary(i, r, |valid|)
    ensures DifferenceImage(valid, test, r, threshold, true)[i] == 0
    ensures !Counted(valid, test, i, r, threshold, true)
  {
  }

  /** The number of differing pixels never exceeds the number of pixels. */
  lemma {:induction false} CountAtMostPixels(valid: seq<int>, test: seq<int>, r: nat, threshold: int, ignoreBoundary: bool, k: nat)
    requires |valid| == |test| && k <= |valid|
    ensures CountDifferences(valid, test, r, threshold, ignoreBoundary, k) <= k
  {
    if k > 0 {
      CountAtMostPixels(valid, test, r, threshold, ignoreBoundary, k - 1);
    }
  }

  /** The total difference exceeds threshold times the count: each counted
      pixel's difference is strictly above the threshold. */
  lemma {:induction false} SumAboveThreshold(valid: seq<int>, test: seq<int>, r: nat, threshold: int, ignoreBoundary: bool, k: nat)
    requires |valid| == |test| && k <= |valid|
    ensures SumDifferences(valid, test, r, threshold, ignoreBoundary, k) >=
            (threshold + 1) * CountDifferences(valid, test, r, threshold, ignoreBoundary, k)
  {
    if k > 0 {
      SumAboveThreshold(valid, test, r, threshold, ignoreBoundary, k - 1);
      var c := CountDifferences(valid, test, r, threshold, ignoreBoundary, k - 1);
      var s := SumDifferences(valid, test, r, threshold, ignoreBoundary, k - 1);
      if Counted(valid, test, k - 1, r, threshold, ignoreBoundary) {
        var m := MinDiff(valid[k - 1], Neighbourhood(test, k - 1, r));
        assert SumDifferences(valid, test, r, threshold, ignoreBoundary, k) == s + m;
        assert CountDifferences(valid, test, r, threshold, ignoreBoundary, k) == c + 1;
        AddAboveBound(threshold + 1, c, s, m);
      } else {
        assert SumDifferences(valid, test, r, threshold, ignoreBoundary, k) == s;
        assert CountDifferences(valid, test, r, threshold, ignoreBoundary, k) == c;
      }
    }
  }

  /** One more term of at least b keeps a sum at or above b times the count. */
  lemma AddAboveBound(b: int, c: nat, s: int, m: int)
    requires s >= b * c && m >= b
    ensures s + m >= b * (c + 1)
  {
  }

  /** TotalDifference equals the sum of the difference image: pixels that are not
      counted contribute zero to both. */
  lemma {:induction false} TotalIsSumOfDifferenceImage(valid: seq<int>, test: seq<int>, r: nat, threshold: int, ignoreBoundary: bool, k: nat)
    requires |valid| == |test| && k <= |valid|
    ensures SumDifferences(valid, test, r, threshold, ignoreBoundary, k) ==
            SumOf(DifferenceImage(valid, test, r, threshold, ignoreBoundary)[..k])
  {
    var out := DifferenceImage(valid, test, r, threshold, ignoreBoundary);
    if k > 0 {
      TotalIsSumOfDifferenceImage(valid, test, r, threshold, ignoreBoundary, k - 1);
      assert out[..k][..k - 1] == out[..k - 1];
    }
  }

  // ---------------------------------------------------------------------------
  // The filter

  /** The neighbourhood search for one pixel: the centre is tried first, then the
      whole neighbourhood in order, stopping once a difference within the threshold
      is found. The result exceeds the threshold exactly when the true minimum does,
      and then equals it. */
  method MinimumDifference(t: int, nb: seq<int>, centre: nat, threshold: int) returns (minimumDifference: int)
    requires centre < |nb|
    ensures (minimumDifference > threshold) == (MinDiff(t, nb) > threshold)
    ensures minimumDifference > threshold ==> minimumDifference == MinDiff(t, nb)
  {
    minimumDifference := AbsDiff(t, nb[centre]);
    if minimumDifference > threshold {
      var i := 0;
      while i < |nb|
        invariant 0 <= i <= |nb|
        invariant i == 0 ==> minimumDifference == AbsDiff(t, nb[centre])
        invariant i >= 1 ==> minimumDifference == Min(AbsDiff(t, nb[centre]), MinDiffPrefix(t, nb, i))
        invariant minimumDifference > threshold
      {
        var d := AbsDiff(t, nb[i]);
        if d < minimumDifference {
          minimumDifference := d;
          if minimumDifference <= threshold {
            MinDiffIsMinimum(t, nb);
            return;
          }
        }
        i := i + 1;
      }
      MinDiffIsMinimum(t, nb);
    } else {
      MinDiffIsMinimum(t, nb);
    }
  }

  /** The work done for one pixel of the pass: the value written to the difference
      image and whether the pixel is counted. */
  method ComparePixel(valid: seq<int>, test: seq<int>, i: nat, r: nat, threshold: int, ignoreBoundary: bool)
    returns (value: int, counted: bool)
    requires |valid| == |test| && i < |valid|
    ensures value == PixelDifference(valid, test, i, r, threshold, ignoreBoundary)
    ensures counted == Counted(valid, test, i, r, threshold, ignoreBoundary)
    ensures counted ==> value > threshold
  {
    if ignoreBoundary && OnBoundary(i, r, |valid|) {
      value, counted := 0, false;
    } else {
      var nb := Neighbourhood(test, i, r);
      var minimumDifference := MinimumDifference(valid[i], nb, r, threshold);
      if minimumDifference > threshold {
        value, counted := minimumDifference, true;
      } else {
        value, counted := 0, false;
      }
    }
  }

  /** The pixel pass: every pixel of the region in turn, writing the difference
      image and returning what it adds to the accumulators. */
  method ComparePixels(valid: seq<int>, test: seq<int>, r: nat, threshold: int, ignoreBoundary: bool, out: array<int>)
    returns (sum: int, count: nat)
    requires |valid| == |test| == out.Length
    modifies out
    ensures out[..] == DifferenceImage(valid, test, r, threshold, ignoreBoundary)
    ensures sum == SumDifferences(valid, test, r, threshold, ignoreBoundary, |valid|)
    ensures count == CountDifferences(valid, test, r, threshold, ignoreBoundary, |valid|)
  {
    sum, count := 0, 0;
    var i := 0;
    while i < |valid|
      invariant 0 <= i <= |valid|
      invariant forall j :: 0 <= j < i ==> out[j] == PixelDifference(valid, test, j, r, threshold, ignoreBoundary)
      invariant sum == SumDifferences(valid, test, r, threshold, ignoreBoundary, i)
      invariant count == CountDifferences(valid, test, r, threshold, ignoreBoundary, i)
    {
      var value, counted := ComparePixel(valid, test, i, r, threshold, ignoreBoundary);
      out[i] := value;
      if counted {
        sum := sum + value;
        count := count + 1;
      }
      i := i + 1;
    }
    assert out[..] == DifferenceImage(valid, test, r, threshold, ignoreBoundary);
  }

  class ComparisonFilter {
    var differenceThreshold: int
    var toleranceRadius: int
    var ignoreBoundaryPixels: bool
    var meanDifference: real
    var totalDifference: int
    var numberOfPixelsWithDifferences: nat
    /** The per-thread accumulators, for the single thread of the model. */
    var threadDifferenceSum: int
    var threadNumberOfPixels: nat

    /** Defaults: threshold 0, radius 0, statistics zero, boundary pixels compared. */
    constructor ()
      ensures differenceThreshold == 0 && toleranceRadius == 0 && !ignoreBoundaryPixels
      ensures meanDifference == 0.0 && totalDifference == 0 && numberOfPixelsWithDifferences == 0
      ensures threadDifferenceSum == 0 && threadNumberOfPixels == 0
    {
      differenceThreshold := 0;
      toleranceRadius := 0;
      meanDifference := 0.0;
      totalDifference := 0;
      numberOfPixelsWithDifferences := 0;
      ignoreBoundaryPixels := false;
      threadDifferenceSum := 0;
      threadNumberOfPixels := 0;
    }

    /** Resets the statistics and the accumulators before a run. */
    method BeforeThreadedGenerateData()
      modifies this`meanDifference, this`totalDifference, this`numberOfPixelsWithDifferences,
               this`threadDifferenceSum, this`threadNumberOfPixels
      ensures meanDifference == 0.0 && totalDifference == 0 && numberOfPixelsWithDifferences == 0
      ensures threadDifferenceSum == 0 && threadNumberOfPixels == 0
    {
      meanDifference := 0.0;
      totalDifference := 0;
      numberOfPixelsWithDifferences := 0;
      threadDifferenceSum := 0;
      threadNumberOfPixels := 0;
    }

    /** The pixel pass over the whole requested region: writes the difference image
        and adds the differing pixels to the accumulators. Fails, touching nothing,
        when the two inputs have different buffered regions. */
    method ThreadedGenerateData(valid: array<int>, test: array<int>, validRegion: Region, testRegion: Region, out: array<int>)
      returns (outcome: Outcome<Error>)
      requires validRegion.size == [valid.Length] && testRegion.size == [test.Length]
      requires out.Length == valid.Length
      requires out != valid && out != test
      modifies out, this`threadDifferenceSum, this`threadNumberOfPixels
      ensures outcome.Fail? <==> validRegion != testRegion
      ensures outcome.Fail? ==> unchanged(out) && unchanged(this)
      ensures outcome.Pass? ==>
        var r := AxisRadius(toleranceRadius, valid.Length);
        out[..] == DifferenceImage(valid[..], test[..], r, differenceThreshold, ignoreBoundaryPixels) &&
        threadDifferenceSum == old(threadDifferenceSum) +
          SumDifferences(valid[..], test[..], r, differenceThreshold, ignoreBoundaryPixels, valid.Length) &&
        threadNumberOfPixels == old(threadNumberOfPixels) +
          CountDifferences(valid[..], test[..], r, differenceThreshold, ignoreBoundaryPixels, valid.Length)
    {
      if validRegion != testRegion {
        return Fail(DifferentBufferedRegions);
      }
      var radius := ComputeRadius(toleranceRadius, [valid.Length]);
      var sum, count := ComparePixels(valid[..], test[..], radius[0], differenceThreshold, ignoreBoundaryPixels, out);
      threadDifferenceSum := threadDifferenceSum + sum;
      threadNumberOfPixels := threadNumberOfPixels + count;
      outcome := Pass;
    }

    /** Folds the accumulators into the statistics; the mean is taken over every
        pixel of the requested region, not only the differing ones. */
    method AfterThreadedGenerateData(numberOfPixels: nat)
      requires numberOfPixels > 0
      modifies this`totalDifference, this`numberOfPixelsWithDifferences, this`meanDifference
      ensures totalDifference == old(totalDifference) + threadDifferenceSum
      ensures numberOfPixelsWithDifferences == old(numberOfPixelsWithDifferences) + threadNumberOfPixels
      ensures meanDifference == totalDifference as real / numberOfPixels as real
    {
      totalDifference := totalDifference + threadDifferenceSum;
      numberOfPixelsWithDifferences := numberOfPixelsWithDifferences + threadNumberOfPixels;
      meanDifference := totalDifference as real / numberOfPixels as real;
    }

    /** A whole run: reset, pixel pass, statistics. The statistics depend only on
        the inputs and the settings, so a second run does not accumulate onto the
        first. */
    method Update(valid: array<int>, test: array<int>, validRegion: Region, testRegion: Region, out: array<int>)
      returns (outcome: Outcome<Error>)
      requires validRegion.size == [valid.Length] && testRegion.size == [test.Length]
      requires out.Length == valid.Length && valid.Length > 0
      requires out != valid && out != test
      modifies out, this
      ensures outcome.Fail? <==> validRegion != testRegion
      ensures differenceThreshold == old(differenceThreshold) && toleranceRadius == old(toleranceRadius)
      ensures ignoreBoundaryPixels == old(ignoreBoundaryPixels)
      ensures outcome.Pass? ==>
        var r := AxisRadius(toleranceRadius, valid.Length);
        out[..] == DifferenceImage(valid[..], test[..], r, differenceThreshold, ignoreBoundaryPixels) &&
        totalDifference == SumDifferences(valid[..], test[..], r, differenceThreshold, ignoreBoundaryPixels, valid.Length) &&
        numberOfPixelsWithDifferences == CountDifferences(valid[..], test[..], r, differenceThreshold, ignoreBoundaryPixels, valid.Length) &&
        meanDifference == totalDifference as real / valid.Length as real
      ensures outcome.Fail? ==>
        meanDifference == 0.0 && totalDifference == 0 && numberOfPixelsWithDifferences == 0
    {
      BeforeThreadedGenerateData();
      outcome := ThreadedGenerateData(valid, test, validRegion, testRegion, out);
      if outcome.Pass? {
        AfterThreadedGenerateData(valid.Length);
      }
    }
  }
}
