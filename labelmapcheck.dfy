/** The refacer test that checks where an image was deformed: both the original
    and the refaced image are masked by the brain label map, the absolute
    differences of the masked images are summed, and the exit status says whether
    the sum is what the mode expects. In non-deformed-area mode the brain must be
    untouched (sum 0); otherwise the area outside the brain must have changed
    (sum above 0). Reading and resampling the images are left out. */
module RefacerDeformationCheck {
  import opened Common

  datatype ExitStatus = ExitSuccess | ExitFailure

  /** The settings of a label-map mask filter. */
  datatype MaskSettings = MaskSettings(maskLabel: int, negated: bool, background: int)

  /** Both mask filters use label 0 and background 0, negated exactly in
      non-deformed-area mode. */
  function MaskFor(checkNonDeformedArea: bool): (m: MaskSettings)
    ensures m.maskLabel == 0 && m.background == 0
    ensures m.negated <==> checkNonDeformedArea
  {
    MaskSettings(0, checkNonDeformedArea, 0)
  }

  /** Whether the mask keeps a pixel of the given label: pixels of the mask's
      label, or, negated, all the others. */
  predicate Kept(m: MaskSettings, pixelLabel: int) {
    (pixelLabel == m.maskLabel) != m.negated
  }

  /** The masked image: kept pixels keep their value, the others become the
      background value. */
  function Masked(feature: seq<int>, labels: seq<int>, m: MaskSettings): (r: seq<int>)
    requires |labels| == |feature|
    ensures |r| == |feature|
    ensures forall i :: 0 <= i < |feature| ==> r[i] == if Kept(m, labels[i]) then feature[i] else m.background
  {
    seq(|feature|, i requires 0 <= i < |feature| => if Kept(m, labels[i]) then feature[i] else m.background)
  }

  function Abs(x: int): nat {
    if x < 0 then -x else x
  }

  /** The sum of absolute differences of two images of the same size. */
  function AbsDiffSum(a: seq<int>, b: seq<int>): nat
    requires |a| == |b|
  {
    if a == [] then 0 else AbsDiffSum(a[..|a| - 1], b[..|b| - 1]) + Abs(a[|a| - 1] - b[|b| - 1])
  }

  /** The sum is zero exactly when the two images are equal. */
  lemma {:induction false} AbsDiffSumZero(a: seq<int>, b: seq<int>)
    requires |a| == |b|
    ensures AbsDiffSum(a, b) == 0 <==> a == b
  {
    if a != [] {
      var n := |a| - 1;
      AbsDiffSumZero(a[..n], b[..n]);
      if AbsDiffSum(a, b) == 0 {
        assert a == a[..n] + [a[n]] && b == b[..n] + [b[n]];
      }
      if a == b {
        assert a[..n] == b[..n];
      }
    }
  }

  /** The exit decision once the statistics are computed, as written: in
      non-deformed-area mode success iff the sum is 0, otherwise success iff the
      sum is above 0; an exception from the statistics is a failure. */
  function Decision(checkNonDeformedArea: bool, absDiffSum: Option<real>): (s: ExitStatus)
    ensures absDiffSum.None? ==> s == ExitFailure
    ensures absDiffSum.Some? && checkNonDeformedArea ==> (s == ExitSuccess <==> absDiffSum.value == 0.0)
    ensures absDiffSum.Some? && !checkNonDeformedArea ==> (s == ExitSuccess <==> absDiffSum.value > 0.0)
  {
    match absDiffSum
    case None => ExitFailure
    case Some(sum) =>
      if checkNonDeformedArea then (if sum == 0.0 then ExitSuccess else ExitFailure)
      else (if sum > 0.0 then ExitSuccess else ExitFailure)
  }

  /** The whole check on images already resampled to the same grid, with
      statisticsThrow saying whether the statistics filter threw. Without an
      exception, non-deformed-area mode succeeds iff the two masked images are
      equal, and the other mode iff they differ. */
  function CheckDeformation(checkNonDeformedArea: bool, original: seq<int>, refaced: seq<int>, labels: seq<int>,
                            statisticsThrow: bool): (r: ExitStatus)
    requires |original| == |refaced| == |labels|
    ensures statisticsThrow ==> r == ExitFailure
    ensures !statisticsThrow ==>
      var m := MaskFor(checkNonDeformedArea);
      (r == ExitSuccess <==> (checkNonDeformedArea <==> Masked(refaced, labels, m) == Masked(original, labels, m)))
  {
    var m := MaskFor(checkNonDeformedArea);
    var a, b := Masked(refaced, labels, m), Masked(original, labels, m);
    AbsDiffSumZero(a, b);
    Decision(checkNonDeformedArea, if statisticsThrow then None else Some(AbsDiffSum(a, b) as real))
  }

  /** What the check establishes: in non-deformed-area mode it succeeds exactly
      when the two images agree on every brain pixel (label other than 0); in
      the other mode exactly when they differ on some pixel outside the brain
      (label 0). */
  lemma CheckDeformationMeaning(checkNonDeformedArea: bool, original: seq<int>, refaced: seq<int>, labels: seq<int>)
    requires |original| == |refaced| == |labels|
    ensures checkNonDeformedArea ==>
      (CheckDeformation(true, original, refaced, labels, false) == ExitSuccess <==>
       forall i :: 0 <= i < |labels| && labels[i] != 0 ==> original[i] == refaced[i])
    ensures !checkNonDeformedArea ==>
      (CheckDeformation(false, original, refaced, labels, false) == ExitSuccess <==>
       exists i :: 0 <= i < |labels| && labels[i] == 0 && original[i] != refaced[i])
  {
    var m := MaskFor(checkNonDeformedArea);
    var a, b := Masked(refaced, labels, m), Masked(original, labels, m);
    AbsDiffSumZero(a, b);
    if a == b {
      forall i | 0 <= i < |labels| && Kept(m, labels[i])
        ensures original[i] == refaced[i]
      {
        assert a[i] == b[i];
      }
    } else {
      var i :| 0 <= i < |a| && a[i] != b[i];
      assert Kept(m, labels[i]) && original[i] != refaced[i];
    }
  }
}
