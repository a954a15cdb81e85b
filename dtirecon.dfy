/** Configuration, tensor basis and voxel gating of
    itk::DiffusionTensor3DReconstructionWithMaskImageFilter.

    Gradient data arrive either one scalar image per direction (AddGradientImage,
    "many images" mode) or as one vector image with a direction container
    (SetGradientImage, "single image" mode); the two calls exclude each other.
    A direction whose one-norm is not positive marks a baseline (b0) image. The
    tensor basis is built from the B-matrix, whose row m is the quadratic-form
    layout of gradient direction m. A voxel gets a reconstructed tensor only when
    its b0 value is non-zero, at least the threshold and not masked out; the
    logarithm and the pseudo-inverse solve are given as functions. */
module DiffusionTensorReconstruction {
  import opened Common

  datatype GradientImageTypeEnumeration = GradientIsInManyImages | GradientIsInASingleImage | Else

  datatype Error =
    | BothAddAndSetCalled
    | VectorLengthMismatch(directions: nat, components: nat)
    | NotEnoughGradientDirections
    | OnlyGradientImageIsNotAVectorImage
    | MaskSizeMismatch
    | GradientIndexOutOfRange

  /** An image connected as a filter input: a scalar gradient image of the many-images
      mode, or the vector image of the single-image mode with its component count. */
  datatype InputImage = ScalarImage(id: nat) | VectorImage(id: nat, vectorLength: nat)

  /** A symmetric diffusion tensor by its six independent entries. */
  datatype Tensor = Tensor(xx: real, xy: real, xz: real, yy: real, yz: real, zz: real)

  const ZeroTensor := Tensor(0.0, 0.0, 0.0, 0.0, 0.0, 0.0)

  /** Number of B-matrix columns: the independent entries of a symmetric 3x3 tensor. */
  const TensorComponents := 6

  function Abs(x: real): real { if x < 0.0 then -x else x }

  function OneNorm(g: Point3): real { Abs(g.x) + Abs(g.y) + Abs(g.z) }

  /** A direction with non-positive one-norm stands for a baseline image. */
  predicate IsBaseline(g: Point3) { OneNorm(g) <= 0.0 }

  /** Number of baseline directions in a container. */
  function CountBaselines(dirs: seq<Point3>): nat {
    if dirs == [] then 0
    else CountBaselines(dirs[..|dirs| - 1]) + (if IsBaseline(dirs[|dirs| - 1]) then 1 else 0)
  }

  /** Indices i of the directions with IsBaseline(dirs[i]) == baseline, in container order. */
  function IndicesWhere(dirs: seq<Point3>, baseline: bool): seq<nat> {
    if dirs == [] then []
    else IndicesWhere(dirs[..|dirs| - 1], baseline) + (if IsBaseline(dirs[|dirs| - 1]) == baseline then [|dirs| - 1] else [])
  }

  /** Indices of the baseline directions, in container order. */
  function BaselineIndices(dirs: seq<Point3>): seq<nat> { IndicesWhere(dirs, true) }

  /** Indices of the gradient (non-baseline) directions, in container order. */
  function GradientIndices(dirs: seq<Point3>): seq<nat> { IndicesWhere(dirs, false) }

  predicate StrictlyIncreasing(s: seq<nat>) {
    forall a, b :: 0 <= a < b < |s| ==> s[a] < s[b]
  }

  lemma {:induction false} IndicesWhereSelects(dirs: seq<Point3>, baseline: bool)
    ensures StrictlyIncreasing(IndicesWhere(dirs, baseline))
    ensures forall k :: 0 <= k < |IndicesWhere(dirs, baseline)| ==> IndicesWhere(dirs, baseline)[k] < |dirs|
    ensures forall i :: i in IndicesWhere(dirs, baseline) <==> 0 <= i < |dirs| && IsBaseline(dirs[i]) == baseline
  {
    if dirs != [] {
      var n := |dirs| - 1;
      var init := dirs[..n];
      IndicesWhereSelects(init, baseline);
      forall i ensures i in IndicesWhere(dirs, baseline) <==> 0 <= i <= n && IsBaseline(dirs[i]) == baseline {
        if 0 <= i < n {
          assert init[i] == dirs[i];
        }
      }
    }
  }

  lemma {:induction false} IndicesWhereCount(dirs: seq<Point3>)
    ensures |IndicesWhere(dirs, true)| == CountBaselines(dirs)
    ensures |IndicesWhere(dirs, false)| == |dirs| - CountBaselines(dirs)
  {
    if dirs != [] {
      IndicesWhereCount(dirs[..|dirs| - 1]);
    }
  }

  /** Every direction index lands in exactly one of the two lists, baselines in the
      first and gradients in the second, each in ascending order; the baseline list
      is as long as the baseline count and the gradient list holds the rest. */
  lemma IndicesPartition(dirs: seq<Point3>)
    ensures StrictlyIncreasing(BaselineIndices(dirs)) && StrictlyIncreasing(GradientIndices(dirs))
    ensures forall k :: 0 <= k < |BaselineIndices(dirs)| ==> BaselineIndices(dirs)[k] < |dirs|
    ensures forall k :: 0 <= k < |GradientIndices(dirs)| ==> GradientIndices(dirs)[k] < |dirs|
    ensures forall i :: i in BaselineIndices(dirs) <==> 0 <= i < |dirs| && IsBaseline(dirs[i])
    ensures forall i :: i in GradientIndices(dirs) <==> 0 <= i < |dirs| && !IsBaseline(dirs[i])
    ensures |BaselineIndices(dirs)| == CountBaselines(dirs)
    ensures |GradientIndices(dirs)| == |dirs| - CountBaselines(dirs)
  {
    IndicesWhereSelects(dirs, true);
    IndicesWhereSelects(dirs, false);
    IndicesWhereCount(dirs);
  }

  /** Row m of the B-matrix for gradient direction g: the coefficients of the six
      tensor entries in the quadratic form g^T D g. */
  function BRow(g: Point3): seq<real> {
    [g.x * g.x, 2.0 * g.x * g.y, 2.0 * g.x * g.z, g.y * g.y, 2.0 * g.y * g.z, g.z * g.z]
  }

  /** g^T D g for the symmetric tensor D. */
  function QuadraticForm(g: Point3, d: Tensor): real {
    g.x * (d.xx * g.x + d.xy * g.y + d.xz * g.z) +
    g.y * (d.xy * g.x + d.yy * g.y + d.yz * g.z) +
    g.z * (d.xz * g.x + d.yz * g.y + d.zz * g.z)
  }

  function TensorEntries(d: Tensor): seq<real> { [d.xx, d.xy, d.xz, d.yy, d.yz, d.zz] }

  /** Sum of u[i] * v[i] over the first k positions. */
  function Dot(u: seq<real>, v: seq<real>, k: nat): real
    requires k <= |u| && k <= |v|
  {
    if k == 0 then 0.0 else Dot(u, v, k - 1) + u[k - 1] * v[k - 1]
  }

  /** The row layout is the Stejskal-Tanner quadratic form: a B-matrix row applied to
      a tensor's six entries gives g^T D g. */
  lemma BRowIsQuadraticForm(g: Point3, d: Tensor)
    ensures Dot(BRow(g), TensorEntries(d), TensorComponents) == QuadraticForm(g, d)
  {
    var u, v := BRow(g), TensorEntries(d);
    assert Dot(u, v, 1) == g.x * g.x * d.xx;
    assert Dot(u, v, 2) == g.x * g.x * d.xx + 2.0 * g.x * g.y * d.xy;
    assert Dot(u, v, 4) == Dot(u, v, 2) + 2.0 * g.x * g.z * d.xz + g.y * g.y * d.yy;
    assert Dot(u, v, 6) == Dot(u, v, 4) + 2.0 * g.y * g.z * d.yz + g.z * g.z * d.zz;
  }

  /** The B-matrix: one row per gradient direction, taken in gradient-index order. */
  function BMatrixRows(dirs: seq<Point3>, n: nat): (b: seq<seq<real>>)
    requires n <= |GradientIndices(dirs)|
    ensures |b| == n
  {
    IndicesPartition(dirs);
    seq(n, m requires 0 <= m < n => BRow(dirs[GradientIndices(dirs)[m]]))
  }

  predicate IsMatrix(b: seq<seq<real>>, rows: nat, cols: nat) {
    |b| == rows && forall m :: 0 <= m < rows ==> |b[m]| == cols
  }

  /** Sum over the rows m < k of b[m][i] * b[m][j]. */
  function ColumnProduct(b: seq<seq<real>>, i: nat, j: nat, k: nat): real
    requires k <= |b|
    requires forall m :: 0 <= m < |b| ==> i < |b[m]| && j < |b[m]|
  {
    if k == 0 then 0.0 else ColumnProduct(b, i, j, k - 1) + b[k - 1][i] * b[k - 1][j]
  }

  /** B^T B for a matrix with six columns. */
  function Gram(b: seq<seq<real>>): (g: seq<seq<real>>)
    requires IsMatrix(b, |b|, TensorComponents)
    ensures IsMatrix(g, TensorComponents, TensorComponents)
  {
    seq(TensorComponents, i requires 0 <= i < TensorComponents =>
      seq(TensorComponents, j requires 0 <= j < TensorComponents => ColumnProduct(b, i, j, |b|)))
  }

  /** The transpose of a rows x cols matrix. */
  function Transpose(b: seq<seq<real>>, cols: nat): (t: seq<seq<real>>)
    requires IsMatrix(b, |b|, cols)
    ensures IsMatrix(t, cols, |b|)
    ensures forall i, m :: 0 <= i < cols && 0 <= m < |b| ==> t[i][m] == b[m][i]
  {
    seq(cols, i requires 0 <= i < cols => seq(|b|, m requires 0 <= m < |b| => b[m][i]))
  }

  lemma {:induction false} ColumnProductSymmetric(b: seq<seq<real>>, i: nat, j: nat, k: nat)
    requires k <= |b|
    requires forall m :: 0 <= m < |b| ==> i < |b[m]| && j < |b[m]|
    ensures ColumnProduct(b, i, j, k) == ColumnProduct(b, j, i, k)
  {
    if k > 0 {
      ColumnProductSymmetric(b, i, j, k - 1);
    }
  }

  /** B^T B is a symmetric 6x6 matrix. */
  lemma GramSymmetric(b: seq<seq<real>>)
    requires IsMatrix(b, |b|, TensorComponents)
    ensures forall i, j :: 0 <= i < TensorComponents && 0 <= j < TensorComponents ==> Gram(b)[i][j] == Gram(b)[j][i]
  {
    forall i, j | 0 <= i < TensorComponents && 0 <= j < TensorComponents
      ensures Gram(b)[i][j] == Gram(b)[j][i]
    {
      ColumnProductSymmetric(b, i, j, |b|);
    }
  }

  /** Indices of the baseline and the gradient directions, as the single-image pass
      computes them before walking the voxels. */
  method PartitionDirections(dirs: seq<Point3>) returns (baselineInd: seq<nat>, gradientInd: seq<nat>)
    ensures StrictlyIncreasing(baselineInd) && StrictlyIncreasing(gradientInd)
    ensures forall k :: 0 <= k < |baselineInd| ==> baselineInd[k] < |dirs|
    ensures forall k :: 0 <= k < |gradientInd| ==> gradientInd[k] < |dirs|
    ensures forall i :: i in baselineInd <==> 0 <= i < |dirs| && IsBaseline(dirs[i])
    ensures forall i :: i in gradientInd <==> 0 <= i < |dirs| && !IsBaseline(dirs[i])
    ensures baselineInd == BaselineIndices(dirs) && gradientInd == GradientIndices(dirs)
  {
    baselineInd, gradientInd := [], [];
    var i := 0;
    while i < |dirs|
      invariant 0 <= i <= |dirs|
      invariant baselineInd == BaselineIndices(dirs[..i]) && gradientInd == GradientIndices(dirs[..i])
    {
      assert dirs[..i + 1][..i] == dirs[..i];
      if OneNorm(dirs[i]) <= 0.0 {
        baselineInd := baselineInd + [i];
      } else {
        gradientInd := gradientInd + [i];
      }
      i := i + 1;
    }
    assert dirs[..|dirs|] == dirs;
    IndicesPartition(dirs);
  }

  /** The rows of the B-matrix for the first n gradient directions, or an error
      when fewer than n directions are non-zero. */
  method BuildBMatrix(dirs: seq<Point3>, n: nat) returns (r: Result<seq<seq<real>>, Error>)
    ensures r.Err? <==> |GradientIndices(dirs)| < n
    ensures r.Err? ==> r.error == GradientIndexOutOfRange
    ensures r.Ok? ==> r.value == BMatrixRows(dirs, n) && IsMatrix(r.value, n, TensorComponents)
  {
    var _, gradientInd := PartitionDirections(dirs);
    if |gradientInd| < n {
      return Err(GradientIndexOutOfRange);
    }
    var b: seq<seq<real>> := [];
    var m := 0;
    while m < n
      invariant 0 <= m <= n
      invariant |b| == m
      invariant forall k :: 0 <= k < m ==> b[k] == BRow(dirs[gradientInd[k]])
    {
      b := b + [BRow(dirs[gradientInd[m]])];
      m := m + 1;
    }
    assert b == BMatrixRows(dirs, n);
    r := Ok(b);
  }

  // ---------------------------------------------------------------------------
  // Voxel gating

  /** A voxel is reconstructed only when b0 is non-zero, the voxel is not masked out
      (no mask, or a non-zero mask value) and b0 reaches the threshold. */
  predicate Reconstructed(b0: int, mask: Option<int>, threshold: int) {
    b0 != 0 && (mask.None? || mask.value != 0) && b0 >= threshold
  }

  /** The entry of the signal vector for gradient sample b: zero for a zero sample,
      otherwise the attenuation -log(b / b0) / BValue computed by the given function. */
  function SignalEntry(b: nat, b0: int, attenuation: (nat, int) -> real): (e: real)
    ensures b == 0 ==> e == 0.0
    ensures b != 0 ==> e == attenuation(b, b0)
  {
    if b == 0 then 0.0 else attenuation(b, b0)
  }

  /** The tensor written for one voxel. */
  function VoxelTensor(b0: int, mask: Option<int>, threshold: int, samples: seq<nat>,
                       attenuation: (nat, int) -> real, solve: seq<real> -> Tensor): (t: Tensor)
    ensures !Reconstructed(b0, mask, threshold) ==> t == ZeroTensor
  {
    if Reconstructed(b0, mask, threshold)
    then solve(seq(|samples|, i requires 0 <= i < |samples| => SignalEntry(samples[i], b0, attenuation)))
    else ZeroTensor
  }

  /** The signal vector handed to the solver has a zero wherever the gradient sample
      is zero, whatever the attenuation function. */
  lemma ZeroSampleGivesZeroEntry(b0: int, mask: Option<int>, threshold: int, samples: seq<nat>, k: nat,
                                 attenuation: (nat, int) -> real, solve: seq<real> -> Tensor)
    requires k < |samples| && samples[k] == 0 && Reconstructed(b0, mask, threshold)
    ensures var signal := seq(|samples|, i requires 0 <= i < |samples| => SignalEntry(samples[i], b0, attenuation));
      signal[k] == 0.0 && VoxelTensor(b0, mask, threshold, samples, attenuation, solve) == solve(signal)
  {
  }

  /** The b0 value of a voxel of the single vector image: the integer average of its
      baseline components. */
  function BaselineAverage(b: seq<nat>, baselineInd: seq<nat>, numberOfBaselines: nat): nat
    requires numberOfBaselines > 0
    requires forall k :: 0 <= k < |baselineInd| ==> baselineInd[k] < |b|
  {
    SumAt(b, baselineInd) / numberOfBaselines
  }

  function SumAt(b: seq<nat>, ind: seq<nat>): nat
    requires forall k :: 0 <= k < |ind| ==> ind[k] < |b|
  {
    if ind == [] then 0 else SumAt(b, ind[..|ind| - 1]) + b[ind[|ind| - 1]]
  }

  // ---------------------------------------------------------------------------
  // The filter

  /** Inserting element x at index k of a vector container: overwrite when k is in
      range, otherwise grow the container to k + 1 elements. */
  function InsertElement(s: seq<Point3>, k: nat, x: Point3): (r: seq<Point3>)
    requires k <= |s|
    ensures |r| == if k < |s| then |s| else |s| + 1
    ensures r[k] == x && forall i :: 0 <= i < |s| && i != k ==> r[i] == s[i]
  {
    if k < |s| then s[k := x] else s + [x]
  }

  class TensorReconstructionFilter {
    var gradientDirections: seq<Point3>
    var numberOfGradientDirections: nat
    var numberOfBaselineImages: nat
    var threshold: int
    var gradientImageType: GradientImageTypeEnumeration
    /** The filter inputs by number; input 0 is the reference or the vector image. */
    var inputs: map<nat, InputImage>
    var bMatrix: seq<seq<real>>
    var tensorBasis: seq<seq<real>>

    ghost predicate Valid()
      reads this
    {
      numberOfGradientDirections <= |gradientDirections|
    }

    /** Defaults: no directions, one baseline, the threshold at the smallest value of
        the reference pixel type, the identity tensor basis, no mode chosen yet. */
    constructor (referencePixelMin: int)
      ensures Valid()
      ensures gradientDirections == [] && numberOfGradientDirections == 0 && numberOfBaselineImages == 1
      ensures threshold == referencePixelMin && gradientImageType == Else && inputs == map[]
      ensures IsMatrix(tensorBasis, TensorComponents, TensorComponents)
      ensures forall i, j :: 0 <= i < TensorComponents && 0 <= j < TensorComponents ==>
        tensorBasis[i][j] == if i == j then 1.0 else 0.0
    {
      gradientDirections := [];
      numberOfGradientDirections := 0;
      numberOfBaselineImages := 1;
      threshold := referencePixelMin;
      gradientImageType := Else;
      inputs := map[];
      bMatrix := [];
      tensorBasis := seq(TensorComponents, i requires 0 <= i < TensorComponents =>
        seq(TensorComponents, j requires 0 <= j < TensorComponents => if i == j then 1.0 else 0.0));
    }

    /** Adds one gradient image with its direction: refused once SetGradientImage has
        been used; otherwise the direction is stored at the old count, the count grows
        by one and the image becomes input number "new count". */
    method AddGradientImage(direction: Point3, image: nat) returns (outcome: Outcome<Error>)
      requires Valid()
      modifies this
      ensures Valid()
      ensures outcome.Fail? <==> old(gradientImageType) == GradientIsInASingleImage
      ensures outcome.Fail? ==> outcome.error == BothAddAndSetCalled && unchanged(this)
      ensures outcome.Pass? ==>
        numberOfGradientDirections == old(numberOfGradientDirections) + 1 &&
        gradientDirections == InsertElement(old(gradientDirections), old(numberOfGradientDirections), direction) &&
        inputs == old(inputs)[numberOfGradientDirections := ScalarImage(image)] &&
        gradientImageType == GradientIsInManyImages &&
        numberOfBaselineImages == old(numberOfBaselineImages) && threshold == old(threshold) &&
        bMatrix == old(bMatrix) && tensorBasis == old(tensorBasis)
    {
      if gradientImageType == GradientIsInASingleImage {
        return Fail(BothAddAndSetCalled);
      }
      gradientDirections := InsertElement(gradientDirections, numberOfGradientDirections, direction);
      numberOfGradientDirections := numberOfGradientDirections + 1;
      inputs := inputs[numberOfGradientDirections := ScalarImage(image)];
      gradientImageType := GradientIsInManyImages;
      outcome := Pass;
    }

    /** Sets the direction container and the vector image: refused once
        AddGradientImage has been used. The container and the two counts are
        replaced before the component count is checked, so a mismatch leaves them
        updated but the mode and the inputs unchanged. */
    method SetGradientImage(directions: seq<Point3>, image: nat, vectorLength: nat) returns (outcome: Outcome<Error>)
      requires Valid()
      modifies this
      ensures Valid()
      ensures outcome.Fail? <==>
        old(gradientImageType) == GradientIsInManyImages || vectorLength != |directions|
      ensures old(gradientImageType) == GradientIsInManyImages ==>
        outcome == Fail(BothAddAndSetCalled) && unchanged(this)
      ensures old(gradientImageType) != GradientIsInManyImages ==>
        gradientDirections == directions &&
        numberOfBaselineImages == CountBaselines(directions) &&
        numberOfGradientDirections + numberOfBaselineImages == |directions| &&
        threshold == old(threshold) && bMatrix == old(bMatrix) && tensorBasis == old(tensorBasis)
      ensures old(gradientImageType) != GradientIsInManyImages && outcome.Fail? ==>
        outcome.error == VectorLengthMismatch(|directions|, vectorLength) &&
        gradientImageType == old(gradientImageType) && inputs == old(inputs)
      ensures outcome.Pass? ==>
        gradientImageType == GradientIsInASingleImage && inputs == old(inputs)[0 := VectorImage(image, vectorLength)]
    {
      if gradientImageType == GradientIsInManyImages {
        return Fail(BothAddAndSetCalled);
      }
      gradientDirections := directions;
      var numImages := |directions|;
      var baselines := 0;
      var i := 0;
      while i < numImages
        invariant 0 <= i <= numImages
        invariant baselines == CountBaselines(directions[..i]) <= i
      {
        assert directions[..i + 1][..i] == directions[..i];
        if OneNorm(directions[i]) <= 0.0 {
          baselines := baselines + 1;
        }
        i := i + 1;
      }
      assert directions[..numImages] == directions;
      numberOfBaselineImages := baselines;
      numberOfGradientDirections := numImages - baselines;
      if vectorLength != numberOfBaselineImages + numberOfGradientDirections {
        return Fail(VectorLengthMismatch(numberOfBaselineImages + numberOfGradientDirections, vectorLength));
      }
      inputs := inputs[0 := VectorImage(image, vectorLength)];
      gradientImageType := GradientIsInASingleImage;
      outcome := Pass;
    }

    /** Builds the B-matrix (one row per gradient direction) and the tensor basis:
        B^T B when there are more than six directions, B itself otherwise; B is then
        stored transposed (6 x n). Fails with fewer than six directions, and when
        fewer directions are non-zero than the gradient count (the many-images mode
        with a zero direction), where the rows would be read past the index list. */
    method ComputeTensorBasis() returns (outcome: Outcome<Error>)
      requires Valid()
      modifies this`bMatrix, this`tensorBasis
      ensures outcome.Fail? <==>
        numberOfGradientDirections < 6 || |GradientIndices(gradientDirections)| < numberOfGradientDirections
      ensures numberOfGradientDirections < 6 ==> outcome == Fail(NotEnoughGradientDirections)
      ensures outcome.Fail? ==> bMatrix == old(bMatrix) && tensorBasis == old(tensorBasis)
      ensures outcome.Pass? ==>
        var b := BMatrixRows(gradientDirections, numberOfGradientDirections);
        IsMatrix(b, numberOfGradientDirections, TensorComponents) &&
        bMatrix == Transpose(b, TensorComponents) &&
        tensorBasis == (if numberOfGradientDirections > 6 then Gram(b) else b)
    {
      if numberOfGradientDirections < 6 {
        return Fail(NotEnoughGradientDirections);
      }
      var n := numberOfGradientDirections;
      var rows := BuildBMatrix(gradientDirections, n);
      if rows.Err? {
        return Fail(rows.error);
      }
      var b := rows.value;
      if n > 6 {
        tensorBasis := Gram(b);
      } else {
        tensorBasis := b;
      }
      bMatrix := Transpose(b, TensorComponents);
      outcome := Pass;
    }

    /** The checks made before reconstruction, then the tensor basis. Input 0 is the
        reference image in the many-images mode and the vector image in the
        single-image mode; a mask must match its size. */
    method BeforeThreadedGenerateData(numberOfInputs: nat, input0ClassName: string, input0Size: seq<nat>,
                                      maskSize: Option<seq<nat>>) returns (outcome: Outcome<Error>)
      requires Valid()
      modifies this`bMatrix, this`tensorBasis
      ensures numberOfGradientDirections < 6 ==> outcome == Fail(NotEnoughGradientDirections)
      ensures (numberOfGradientDirections >= 6 && numberOfInputs == 1 &&
               gradientImageType != GradientIsInASingleImage && input0ClassName != "VectorImage") ==>
        outcome == Fail(OnlyGradientImageIsNotAVectorImage)
      ensures (numberOfGradientDirections >= 6 &&
               !(numberOfInputs == 1 && gradientImageType != GradientIsInASingleImage &&
                 input0ClassName != "VectorImage") &&
               maskSize.Some? && gradientImageType != Else && maskSize.value != input0Size) ==>
        outcome == Fail(MaskSizeMismatch)
      ensures outcome.Fail? <==>
        numberOfGradientDirections < 6 ||
        (numberOfInputs == 1 && gradientImageType != GradientIsInASingleImage &&
         input0ClassName != "VectorImage") ||
        (maskSize.Some? && gradientImageType != Else && maskSize.value != input0Size) ||
        |GradientIndices(gradientDirections)| < numberOfGradientDirections
      ensures outcome.Fail? ==> bMatrix == old(bMatrix) && tensorBasis == old(tensorBasis)
      ensures outcome.Pass? ==>
        var b := BMatrixRows(gradientDirections, numberOfGradientDirections);
        IsMatrix(b, numberOfGradientDirections, TensorComponents) &&
        bMatrix == Transpose(b, TensorComponents) &&
        tensorBasis == (if numberOfGradientDirections > 6 then Gram(b) else b)
    {
      if numberOfGradientDirections < 6 {
        return Fail(NotEnoughGradientDirections);
      }
      if numberOfInputs == 1 && gradientImageType != GradientIsInASingleImage {
        if input0ClassName != "VectorImage" {
          return Fail(OnlyGradientImageIsNotAVectorImage);
        }
      }
      if maskSize.Some? {
        if gradientImageType == GradientIsInManyImages && input0Size != maskSize.value {
          return Fail(MaskSizeMismatch);
        } else if gradientImageType == GradientIsInASingleImage && input0Size != maskSize.value {
          return Fail(MaskSizeMismatch);
        }
      }
      outcome := ComputeTensorBasis();
    }

    /** The many-images pass: voxel v has reference value reference[v] and sample
        gradients[i][v] in gradient image i. */
    method ReconstructManyImages(reference: seq<int>, gradients: seq<seq<nat>>, mask: Option<seq<int>>,
                                 attenuation: (nat, int) -> real, solve: seq<real> -> Tensor, out: array<Tensor>)
      requires |gradients| == numberOfGradientDirections
      requires forall i :: 0 <= i < |gradients| ==> |gradients[i]| == |reference|
      requires out.Length == |reference| && (mask.Some? ==> |mask.value| == |reference|)
      modifies out
      ensures forall v :: 0 <= v < out.Length ==>
        out[v] == VoxelTensor(reference[v], MaskAt(mask, v), threshold,
                              seq(|gradients|, i requires 0 <= i < |gradients| => gradients[i][v]), attenuation, solve)
    {
      var v := 0;
      while v < |reference|
        invariant 0 <= v <= |reference|
        invariant forall w :: 0 <= w < v ==>
          out[w] == VoxelTensor(reference[w], MaskAt(mask, w), threshold,
                                seq(|gradients|, i requires 0 <= i < |gradients| => gradients[i][w]), attenuation, solve)
      {
        var samples := seq(|gradients|, i requires 0 <= i < |gradients| => gradients[i][v]);
        out[v] := VoxelTensor(reference[v], MaskAt(mask, v), threshold, samples, attenuation, solve);
        v := v + 1;
      }
    }

    /** The single-image pass: voxel v is the vector voxels[v]; its b0 is the average
        of the baseline components and its samples are the gradient components. */
    method ReconstructSingleImage(voxels: seq<seq<nat>>, mask: Option<seq<int>>,
                                  attenuation: (nat, int) -> real, solve: seq<real> -> Tensor, out: array<Tensor>)
      requires numberOfBaselineImages > 0
      requires numberOfGradientDirections == |GradientIndices(gradientDirections)|
      requires forall v :: 0 <= v < |voxels| ==> |voxels[v]| == |gradientDirections|
      requires out.Length == |voxels| && (mask.Some? ==> |mask.value| == |voxels|)
      modifies out
      ensures forall v :: 0 <= v < out.Length ==>
        out[v] == VoxelTensor(SingleImageB0(voxels[v], gradientDirections, numberOfBaselineImages),
                              MaskAt(mask, v), threshold,
                              GradientSamples(voxels[v], gradientDirections), attenuation, solve)
    {
      var baselineInd, gradientInd := PartitionDirections(gradientDirections);
      var v := 0;
      while v < |voxels|
        invariant 0 <= v <= |voxels|
        invariant forall w :: 0 <= w < v ==>
          out[w] == VoxelTensor(SingleImageB0(voxels[w], gradientDirections, numberOfBaselineImages),
                                MaskAt(mask, w), threshold,
                                GradientSamples(voxels[w], gradientDirections), attenuation, solve)
      {
        var b := voxels[v];
        var b0 := BaselineAverage(b, baselineInd, numberOfBaselineImages);
        var n := numberOfGradientDirections;
        var samples := seq(n, i requires 0 <= i < n => b[gradientInd[i]]);
        assert samples == GradientSamples(b, gradientDirections);
        out[v] := VoxelTensor(b0, MaskAt(mask, v), threshold, samples, attenuation, solve);
        v := v + 1;
      }
    }
  }

  function MaskAt(mask: Option<seq<int>>, v: nat): Option<int> {
    if mask.Some? && v < |mask.value| then Some(mask.value[v]) else None
  }

  /** b0 of a vector voxel: the integer average of the baseline components. */
  function SingleImageB0(b: seq<nat>, dirs: seq<Point3>, numberOfBaselines: nat): nat
    requires numberOfBaselines > 0 && |b| == |dirs|
  {
    IndicesPartition(dirs);
    BaselineAverage(b, BaselineIndices(dirs), numberOfBaselines)
  }

  /** The gradient components of a vector voxel, in gradient-index order. */
  function GradientSamples(b: seq<nat>, dirs: seq<Point3>): (s: seq<nat>)
    requires |b| == |dirs|
    ensures |s| == |GradientIndices(dirs)|
  {
    IndicesPartition(dirs);
    var gi := GradientIndices(dirs);
    seq(|gi|, i requires 0 <= i < |gi| => b[gi[i]])
  }
}
