# BRAINSTools core bookkeeping, modelled in Dafny

BRAINSTools is a suite of neuro-imaging programs built on ITK and VTK. Most of
it wires toolkit pipelines together, but several files hold self-contained
bookkeeping and decision logic. This project models that logic and proves its
properties. There is one module per source file:

- `ComparisonImageFilter` (`comparison.dfy`): the tolerance comparison of a test
  image against a valid image. It covers the radius clamp, the neighbourhood
  search for the closest value with its early exit, the difference image, and the
  count, total and mean statistics with their reset before each run.
- `DiffusionTensorReconstruction` (`dtirecon.dfy`): the diffusion-tensor filter's
  configuration. It covers the mutually exclusive `AddGradientImage` /
  `SetGradientImage` modes, the baseline and gradient counts, the index partition,
  the B-matrix rows and the tensor basis, the checks before reconstruction, and
  the rule that decides which voxels get a zero tensor.
- `ResampleImageFilter` (`resample.dfy`): the resample filter's per-component
  clamp, output geometry, modification time, default-pixel initialisation,
  per-pixel choice of value, and dispatch to the linear fast path.
- `QuadEdgeMeshParam` (`meshparam.dfy`): mesh parameterisation. It covers
  interior numbering, border placement, assembly of the symmetric sparse matrix
  and its right-hand sides, and write-back of the solved coordinates.
- `DiffusionTensorReader` (`tensorreader.dfy`): the tensor reader's
  component-count check, 3x3-to-9 flattening, position check and `RequestData`
  guards.
- `ConstellationDetector` (`constellation.dfy`): the constellation detector's
  constructor defaults, background fill value, radius overrides, eye-position
  check with its message, and branded-image decision.
- `RefacerPresets` (`refacer.dfy`): the refacer's preset switches, parameter
  tables and the check on a reused B-spline.
- `TimeSeriesDatabase` (`timeseries.dfy`): the time-series source's output
  information, that is region to extent, spacing and origin.
- `RefacerDeformationCheck` (`labelmapcheck.dfy`): the refacer's label-map check program: its mask choice
  and exit decision.
- `Common` (`common.dfy`) holds the shared `Outcome`, `Result`, `Option` and
  `Point3` types.

How the source maps onto the model:

- Objects whose methods update fields are classes.
- Loops in the source are methods with loop invariants, proved against
  specification functions.
- Thrown exceptions are `Fail`/`Err` values, or the `Raised` completion of the
  tensor reader.
- Calls into toolkit code whose behaviour is not part of this model are
  function-valued parameters. These are:
  - the interpolator and extrapolator;
  - the transform mapping;
  - the mesh's edge rings, coefficients and linear solver;
  - `FindPoint` of the VTK image;
  - `std::stoi`;
  - the attenuation logarithm and the pseudo-inverse solve.

## Model

| member | source | states |
|---|---|---|
| ComparisonImageFilter.MinVoxelsNeeded | BRAINSCommonLib/itkV3TestKernel/include/itkTestingComparisonImageFilter.hxx:136 | The width 2t+1 is kept modulo 2^32, as an unsigned int holds it; for 0 <= t < 2^31 it is exactly 2t+1. |
| ComparisonImageFilter.ComputeRadius | BRAINSCommonLib/itkV3TestKernel/include/itkTestingComparisonImageFilter.hxx:134-148 | Each axis gets `AxisRadius`. For a ToleranceRadius t with 0 <= t < 2^31, a non-empty axis gets min(t, (size-1)/2), which is at most t and whose 2r+1 window fits the axis. For any t, a non-empty axis no wider than the wrapped width gets (size-1)/2, which fits. An empty axis gets the wrapped unsigned value of (0-1)/2. |
| ComparisonImageFilter.NegativeToleranceRadius | BRAINSCommonLib/itkV3TestKernel/include/itkTestingComparisonImageFilter.hxx:134-148 | A radius of -1 selects the widest centred window, (10-1)/2 = 4 on an axis of 10. A radius of -2147483638 wraps to the width 21 and is used as a huge unsigned radius, whose window does not fit an axis of 30. |
| ComparisonImageFilter.Neighbourhood | BRAINSCommonLib/itkV3TestKernel/include/itkTestingComparisonImageFilter.hxx:159-164 | The neighbourhood has 2r+1 values read with the zero-flux Neumann condition, and its centre is the test pixel itself. |
| ComparisonImageFilter.MinDiffIsMinimum | BRAINSCommonLib/itkV3TestKernel/include/itkTestingComparisonImageFilter.hxx:181-202 | The smallest difference is at most every neighbourhood difference and equals one of them. |
| ComparisonImageFilter.MinDiffExceedsIff | BRAINSCommonLib/itkV3TestKernel/include/itkTestingComparisonImageFilter.hxx:179-206 | The smallest difference exceeds the threshold iff every neighbourhood value differs by more than the threshold. |
| ComparisonImageFilter.MinimumDifference | BRAINSCommonLib/itkV3TestKernel/include/itkTestingComparisonImageFilter.hxx:170-203 | The search tries the centre first, then scans the neighbourhood with the early exit. Its result exceeds the threshold iff the true minimum does, and then equals the true minimum. |
| ComparisonImageFilter.ComparePixel | BRAINSCommonLib/itkV3TestKernel/include/itkTestingComparisonImageFilter.hxx:162-219 | One pixel writes the specified difference value and is counted exactly per `Counted`. A counted pixel's value is above the threshold. |
| ComparisonImageFilter.ComparePixels | BRAINSCommonLib/itkV3TestKernel/include/itkTestingComparisonImageFilter.hxx:157-233 | The pixel pass writes exactly the difference image and returns the sum and the count of the counted pixels. |
| ComparisonImageFilter.DifferencePixelCharacterisation | BRAINSCommonLib/itkV3TestKernel/include/itkTestingComparisonImageFilter.hxx:171-219 | For a threshold of at least 0, an output pixel is nonzero iff it is not an ignored boundary pixel and every neighbourhood value, centre included, differs by more than the threshold. It then equals the smallest such difference. |
| ComparisonImageFilter.DifferenceImageZeroOrAbove | BRAINSCommonLib/itkV3TestKernel/include/itkTestingComparisonImageFilter.hxx:206-219 | Every output pixel is 0 or strictly above the threshold. |
| ComparisonImageFilter.IgnoredBoundaryPixelsAreZero | BRAINSCommonLib/itkV3TestKernel/include/itkTestingComparisonImageFilter.hxx:162-232 | With IgnoreBoundaryPixels on, a boundary-face pixel is written as 0 and not counted. |
| ComparisonImageFilter.CountAtMostPixels | BRAINSCommonLib/itkV3TestKernel/include/itkTestingComparisonImageFilter.hxx:213 | The number of differing pixels is at most the number of pixels visited. |
| ComparisonImageFilter.SumAboveThreshold | BRAINSCommonLib/itkV3TestKernel/include/itkTestingComparisonImageFilter.hxx:206-213 | The total difference is at least (threshold+1) times the number of differing pixels. |
| ComparisonImageFilter.TotalIsSumOfDifferenceImage | BRAINSCommonLib/itkV3TestKernel/include/itkTestingComparisonImageFilter.hxx:209-218 | The accumulated total equals the sum of the difference image. |
| ComparisonImageFilter.ComparisonFilter.constructor | BRAINSCommonLib/itkV3TestKernel/include/itkTestingComparisonImageFilter.hxx:34-51 | The defaults are: threshold 0, radius 0, statistics 0, boundary pixels compared. |
| ComparisonImageFilter.ComparisonFilter.BeforeThreadedGenerateData | BRAINSCommonLib/itkV3TestKernel/include/itkTestingComparisonImageFilter.hxx:88-104 | The mean, total, count and per-thread accumulators are reset to 0. |
| ComparisonImageFilter.ComparisonFilter.ThreadedGenerateData | BRAINSCommonLib/itkV3TestKernel/include/itkTestingComparisonImageFilter.hxx:109-234 | It fails, changing nothing, iff the buffered regions differ. Otherwise the output is the difference image for the clamped radius, and the accumulators grow by the sum and the count. |
| ComparisonImageFilter.ComparisonFilter.AfterThreadedGenerateData | BRAINSCommonLib/itkV3TestKernel/include/itkTestingComparisonImageFilter.hxx:239-259 | The accumulators are added to the statistics. The mean is the total divided by the number of pixels in the whole region. |
| ComparisonImageFilter.ComparisonFilter.Update | BRAINSCommonLib/itkV3TestKernel/include/itkTestingComparisonImageFilter.hxx:88-259 | A whole run leaves statistics that are functions of the inputs and settings alone, so re-running does not accumulate. The mean is the total divided by the pixel count. A run that fails on different regions leaves the statistics at the 0 of the reset. |
| DiffusionTensorReconstruction.IndicesPartition | BRAINSCommonLib/itkDiffusionTensor3DReconstructionWithMaskImageFilter.hxx:263-279 | Every direction index is in exactly one list: baselines iff the one-norm is at most 0. Both lists are strictly increasing and in range, with lengths equal to the baseline count and to the rest. |
| DiffusionTensorReconstruction.PartitionDirections | BRAINSCommonLib/itkDiffusionTensor3DReconstructionWithMaskImageFilter.hxx:263-279 | The partition loop yields exactly the two increasing index lists of `IndicesPartition`. |
| DiffusionTensorReconstruction.BRowIsQuadraticForm | BRAINSCommonLib/itkDiffusionTensor3DReconstructionWithMaskImageFilter.hxx:373-387 | The row layout [gx², 2gxgy, 2gxgz, gy², 2gygz, gz²] dotted with the tensor entries is gᵀDg. |
| DiffusionTensorReconstruction.Transpose | BRAINSCommonLib/itkDiffusionTensor3DReconstructionWithMaskImageFilter.hxx:399 | The transpose of a rows x cols matrix is cols x rows, with t[i][m] == b[m][i]. |
| DiffusionTensorReconstruction.GramSymmetric | BRAINSCommonLib/itkDiffusionTensor3DReconstructionWithMaskImageFilter.hxx:389-392 | BᵀB is a symmetric 6x6 matrix. |
| DiffusionTensorReconstruction.BuildBMatrix | BRAINSCommonLib/itkDiffusionTensor3DReconstructionWithMaskImageFilter.hxx:360-388 | It fails iff fewer than n directions are non-zero. Otherwise it gives the n x 6 matrix of rows in gradient-index order. |
| DiffusionTensorReconstruction.SignalEntry | BRAINSCommonLib/itkDiffusionTensor3DReconstructionWithMaskImageFilter.hxx:198-209 | A zero gradient sample gives B[i] = 0; any other sample gives the attenuation. |
| DiffusionTensorReconstruction.VoxelTensor | BRAINSCommonLib/itkDiffusionTensor3DReconstructionWithMaskImageFilter.hxx:194-229 | A voxel with b0 == 0, a zero mask value or b0 below the threshold keeps the zero tensor. |
| DiffusionTensorReconstruction.ZeroSampleGivesZeroEntry | BRAINSCommonLib/itkDiffusionTensor3DReconstructionWithMaskImageFilter.hxx:312-323 | In a reconstructed voxel, a zero sample gives a zero signal entry, whatever the attenuation, and the tensor is the solver's result on that signal. |
| DiffusionTensorReconstruction.InsertElement | BRAINSCommonLib/itkDiffusionTensor3DReconstructionWithMaskImageFilter.hxx:424 | Inserting at index k overwrites it, or grows the container by one at its end, and keeps every other element. |
| DiffusionTensorReconstruction.GradientSamples | BRAINSCommonLib/itkDiffusionTensor3DReconstructionWithMaskImageFilter.hxx:312-323 | A vector voxel has as many gradient samples as there are gradient indices. |
| DiffusionTensorReconstruction.TensorReconstructionFilter.constructor | BRAINSCommonLib/itkDiffusionTensor3DReconstructionWithMaskImageFilter.hxx:31-50 | The defaults are: no directions, one baseline, threshold at the pixel type's minimum, identity tensor basis, mode Else. |
| DiffusionTensorReconstruction.TensorReconstructionFilter.AddGradientImage | BRAINSCommonLib/itkDiffusionTensor3DReconstructionWithMaskImageFilter.hxx:404-429 | It fails, changing nothing, iff the mode is single-image. Otherwise the count grows by one, the direction goes in at the old count, the image becomes input "new count", and the mode becomes many-images. |
| DiffusionTensorReconstruction.TensorReconstructionFilter.SetGradientImage | BRAINSCommonLib/itkDiffusionTensor3DReconstructionWithMaskImageFilter.hxx:431-478 | It fails iff the mode is many-images or the vector length differs from the direction count. Outside many-images mode, the container and the baseline and gradient counts are replaced even on a mismatch. On success the mode becomes single-image and input 0 is the vector image. |
| DiffusionTensorReconstruction.TensorReconstructionFilter.ComputeTensorBasis | BRAINSCommonLib/itkDiffusionTensor3DReconstructionWithMaskImageFilter.hxx:351-400 | It fails with fewer than 6 directions. On success the B-matrix is stored transposed, and the basis is BᵀB with more than 6 directions and B otherwise. |
| DiffusionTensorReconstruction.TensorReconstructionFilter.BeforeThreadedGenerateData | BRAINSCommonLib/itkDiffusionTensor3DReconstructionWithMaskImageFilter.hxx:53-109 | It fails iff there are fewer than 6 directions, a lone input outside single-image mode is not a VectorImage, the mask size differs from input 0 in either gradient mode, or the tensor basis cannot be built; each check gives its own error, in that order. A failure leaves the B-matrix and basis alone. On success the B-matrix is the transposed rows of the current directions, and the basis is BᵀB with more than 6 directions and B otherwise. |
| DiffusionTensorReconstruction.TensorReconstructionFilter.ReconstructManyImages | BRAINSCommonLib/itkDiffusionTensor3DReconstructionWithMaskImageFilter.hxx:146-245 | Every output voxel is `VoxelTensor` of its reference b0, its mask value and its gradient samples. |
| DiffusionTensorReconstruction.TensorReconstructionFilter.ReconstructSingleImage | BRAINSCommonLib/itkDiffusionTensor3DReconstructionWithMaskImageFilter.hxx:247-346 | Every output voxel is `VoxelTensor` of its baseline average, its mask value and its gradient components. |
| ResampleImageFilter.ClampComponent | BRAINSSuperResolution/EdgeBasedWeightedTV/itkIdentityResampleByFFT.hxx:253-264 | A component below min becomes min, one in range passes through, and with min <= max the result lies in [min, max]. |
| ResampleImageFilter.ClampPixelProperties | BRAINSSuperResolution/EdgeBasedWeightedTV/itkIdentityResampleByFFT.hxx:253-264 | With min <= max every clamped component is in range, and clamping twice is clamping once. |
| ResampleImageFilter.ClampPixelKeepsInRange | BRAINSSuperResolution/EdgeBasedWeightedTV/itkIdentityResampleByFFT.hxx:253-264 | A pixel already in range is unchanged. |
| ResampleImageFilter.CastPixelWithBoundsChecking | BRAINSSuperResolution/EdgeBasedWeightedTV/itkIdentityResampleByFFT.hxx:237-268 | The component count is kept. Each component below min becomes min, above max becomes max, and otherwise is kept. |
| ResampleImageFilter.SelectPixel | BRAINSSuperResolution/EdgeBasedWeightedTV/itkIdentityResampleByFFT.hxx:332-350 | Inside the buffer the value is the clamped interpolation. Outside, it is the clamped extrapolation if there is an extrapolator, else the default pixel. |
| ResampleImageFilter.SelectedPixelInRange | BRAINSSuperResolution/EdgeBasedWeightedTV/itkIdentityResampleByFFT.hxx:332-350 | Interpolated and extrapolated pixels lie in [min, max]. |
| ResampleImageFilter.LinearPathAgreesWithGeneralPath | BRAINSSuperResolution/EdgeBasedWeightedTV/itkIdentityResampleByFFT.hxx:214-229 | When the fast path is chosen, it writes what the general path would. |
| ResampleImageFilter.ResampleFilter.constructor | BRAINSSuperResolution/EdgeBasedWeightedTV/itkIdentityResampleByFFT.hxx:37-67 | The defaults are: origin 0, spacing 1, identity direction, size and start 0, linear interpolator, no extrapolator, no reference image, empty default pixel. |
| ResampleImageFilter.ResampleFilter.SetOutputParametersFromImage | BRAINSSuperResolution/EdgeBasedWeightedTV/itkIdentityResampleByFFT.hxx:131-139 | All five geometry fields are copied, so the filter's own geometry is the image's. The filter's modification time advances iff that geometry changed. The interpolator, extrapolator, default pixel and reference-image switch are kept. |
| ResampleImageFilter.ResampleFilter.OutputInformation | BRAINSSuperResolution/EdgeBasedWeightedTV/itkIdentityResampleByFFT.hxx:544-568 | With UseReferenceImage on and a reference present, the geometry is the reference's; otherwise it is the filter's own parameters. |
| ResampleImageFilter.ResampleFilter.MTime | BRAINSSuperResolution/EdgeBasedWeightedTV/itkIdentityResampleByFFT.hxx:580-590 | The result is at least the object's time and the interpolator's time, and is one of them. |
| ResampleImageFilter.ResampleFilter.BeforeThreadedGenerateData | BRAINSSuperResolution/EdgeBasedWeightedTV/itkIdentityResampleByFFT.hxx:149-179 | It fails iff there is no interpolator. An empty default pixel becomes all zeros with the input's component count; a non-empty one is kept. |
| ResampleImageFilter.ResampleFilter.NonlinearThreadedGenerateData | BRAINSSuperResolution/EdgeBasedWeightedTV/itkIdentityResampleByFFT.hxx:332-350 | Every output pixel is `SelectPixel` with the general inside test. |
| ResampleImageFilter.ResampleFilter.LinearThreadedGenerateData | BRAINSSuperResolution/EdgeBasedWeightedTV/itkIdentityResampleByFFT.hxx:466-484 | Every output pixel is `SelectPixel` with the buffer test alone. |
| ResampleImageFilter.ResampleFilter.ThreadedGenerateData | BRAINSSuperResolution/EdgeBasedWeightedTV/itkIdentityResampleByFFT.hxx:214-229 | Whichever path is dispatched, every pixel is what the general rule gives. |
| QuadEdgeMeshParam.AddToMatrix | ARCHIVE/BRAINSSurfaceTools/BRAINSSurfaceFlattening/itkQuadEdgeMeshParam.hxx:129 | Adds v to entry (i, j) and leaves every other entry. |
| QuadEdgeMeshParam.SetEntry | ARCHIVE/BRAINSSurfaceTools/BRAINSSurfaceFlattening/itkQuadEdgeMeshParam.hxx:139-140 | Sets entry (i, j) and leaves every other entry. |
| QuadEdgeMeshParam.ConnectInterior | ARCHIVE/BRAINSSurfaceTools/BRAINSSurfaceFlattening/itkQuadEdgeMeshParam.hxx:138-142 | An interior edge i < j writes -w at (i, j) and (j, i) and adds w to both diagonal entries, changing nothing else. |
| QuadEdgeMeshParam.NumberingIsConsecutive | ARCHIVE/BRAINSSurfaceTools/BRAINSSurfaceFlattening/itkQuadEdgeMeshParam.hxx:56-68 | The keys are exactly the non-boundary ids. The numbers are below k, increase in container order, and cover every number below k. |
| QuadEdgeMeshParam.NumberingInjective | ARCHIVE/BRAINSSurfaceTools/BRAINSSurfaceFlattening/itkQuadEdgeMeshParam.hxx:56-68 | Different interior points get different numbers. |
| QuadEdgeMeshParam.NumberingSize | ARCHIVE/BRAINSSurfaceTools/BRAINSSurfaceFlattening/itkQuadEdgeMeshParam.hxx:56-68 | The interior map has as many entries as there are interior ids. |
| QuadEdgeMeshParam.BoundaryEdgeStep | ARCHIVE/BRAINSSurfaceTools/BRAINSSurfaceFlattening/itkQuadEdgeMeshParam.hxx:125-132 | A boundary edge adds its weight to the centre's diagonal and keeps the ring-pass invariant. |
| QuadEdgeMeshParam.InteriorEdgeStep | ARCHIVE/BRAINSSurfaceTools/BRAINSSurfaceFlattening/itkQuadEdgeMeshParam.hxx:133-143 | An edge to an interior point numbered above the centre keeps the matrix symmetric and writes that edge. |
| QuadEdgeMeshParam.SkippedEdgeStep | ARCHIVE/BRAINSSurfaceTools/BRAINSSurfaceFlattening/itkQuadEdgeMeshParam.hxx:135-136 | An edge to an interior point numbered at or below the centre changes nothing. |
| QuadEdgeMeshParam.RingWrittenKept | ARCHIVE/BRAINSSurfaceTools/BRAINSSurfaceFlattening/itkQuadEdgeMeshParam.hxx:106-151 | Another centre's ring pass does not disturb the edges this ring wrote. |
| QuadEdgeMeshParam.MomentStep | ARCHIVE/BRAINSSurfaceTools/BRAINSSurfaceFlattening/itkQuadEdgeMeshParam.hxx:130-131 | Each boundary edge adds coordinate times weight to the moment. |
| QuadEdgeMeshParam.BoundaryEdgeFrame | ARCHIVE/BRAINSSurfaceTools/BRAINSSurfaceFlattening/itkQuadEdgeMeshParam.hxx:125-132 | A boundary edge changes no diagonal entry but the centre's and no off-diagonal entry. |
| QuadEdgeMeshParam.InteriorEdgeFrame | ARCHIVE/BRAINSSurfaceTools/BRAINSSurfaceFlattening/itkQuadEdgeMeshParam.hxx:133-143 | An edge to the interior point numbered j above the centre adds its weight to j's diagonal entry; among off-diagonal entries it changes only (centre, j) and (j, centre). |
| QuadEdgeMeshParam.SkippedEdgeFrame | ARCHIVE/BRAINSSurfaceTools/BRAINSSurfaceFlattening/itkQuadEdgeMeshParam.hxx:135-136 | An edge to an interior point numbered at or below the centre changes no entry. |
| QuadEdgeMeshParam.EdgeStep | ARCHIVE/BRAINSSurfaceTools/BRAINSSurfaceFlattening/itkQuadEdgeMeshParam.hxx:121-146 | Whichever kind the edge is, its update keeps both ring-pass invariants. |
| QuadEdgeMeshParam.AssembleEdge | ARCHIVE/BRAINSSurfaceTools/BRAINSSurfaceFlattening/itkQuadEdgeMeshParam.hxx:121-146 | One edge of the ring keeps both ring-pass invariants and advances both moments. |
| QuadEdgeMeshParam.AssembleRing | ARCHIVE/BRAINSSurfaceTools/BRAINSSurfaceFlattening/itkQuadEdgeMeshParam.hxx:113-147 | A ring pass keeps the matrix symmetric and yields the boundary moments. It adds the diagonal gain to the centre's diagonal entry, and to each other diagonal entry the weights of the ring's edges to it from below. It writes every interior edge above the centre. It changes no off-diagonal entry except those between the centre and the points it reaches above it. |
| QuadEdgeMeshParam.Reached | ARCHIVE/BRAINSSurfaceTools/BRAINSSurfaceFlattening/itkQuadEdgeMeshParam.hxx:133-143 | The points a ring pass connects are all numbered above its centre. |
| QuadEdgeMeshParam.UnlinkedEntriesKept | ARCHIVE/BRAINSSurfaceTools/BRAINSSurfaceFlattening/itkQuadEdgeMeshParam.hxx:87-152 | After one more ring pass, an entry above the diagonal between points that no finished ring links is still the initial one. |
| QuadEdgeMeshParam.BoundaryMomentFrame | ARCHIVE/BRAINSSurfaceTools/BRAINSSurfaceFlattening/itkQuadEdgeMeshParam.hxx:125-132 | The moments read only the positions of boundary points. |
| QuadEdgeMeshParam.SystemKeptByInteriorMoves | ARCHIVE/BRAINSSurfaceTools/BRAINSSurfaceFlattening/itkQuadEdgeMeshParam.hxx:178-204 | Writing the solved interior points back leaves the assembled system the one for the new positions, since only boundary positions enter it. |
| QuadEdgeMeshParam.InteriorRingHasZeroMoment | ARCHIVE/BRAINSSurfaceTools/BRAINSSurfaceFlattening/itkQuadEdgeMeshParam.hxx:125-150 | Right-hand-side entries come only from boundary neighbours: a ring without them gives 0. |
| QuadEdgeMeshParam.InteriorSystemReady | ARCHIVE/BRAINSSurfaceTools/BRAINSSurfaceFlattening/itkQuadEdgeMeshParam.hxx:176-188 | After numbering, interior numbers are distinct indices below the interior count, disjoint from the boundary, and every interior ring is resolved. |
| QuadEdgeMeshParam.MeshParam.constructor | ARCHIVE/BRAINSSurfaceTools/BRAINSSurfaceFlattening/itkQuadEdgeMeshParam.hxx:28-32 | The border, the boundary map, the interior map and the output points start empty. |
| QuadEdgeMeshParam.MeshParam.CopyToOutputBorder | ARCHIVE/BRAINSSurfaceTools/BRAINSSurfaceFlattening/itkQuadEdgeMeshParam.hxx:37-45 | Each boundary point is set to Border[its index]; no other point changes. |
| QuadEdgeMeshParam.MeshParam.ComputeListOfInteriorVertices | ARCHIVE/BRAINSSurfaceTools/BRAINSSurfaceFlattening/itkQuadEdgeMeshParam.hxx:50-69 | The interior map becomes the old map updated with the consecutive numbering of the non-boundary ids. |
| QuadEdgeMeshParam.MeshParam.FillMatrix | ARCHIVE/BRAINSSurfaceTools/BRAINSSurfaceFlattening/itkQuadEdgeMeshParam.hxx:87-152 | The matrix is symmetric. Each interior point's right-hand sides are its boundary moments. Every interior-interior edge leaves -w at both (i, j) and (j, i). An entry between two points that no ring links keeps its initial value. |
| QuadEdgeMeshParam.MeshParam.WriteBack | ARCHIVE/BRAINSSurfaceTools/BRAINSSurfaceFlattening/itkQuadEdgeMeshParam.hxx:192-204 | Each interior point becomes (X[i], Y[i], 0) with i its number; other points are unchanged. |
| QuadEdgeMeshParam.MeshParam.SolveInterior | ARCHIVE/BRAINSSurfaceTools/BRAINSSurfaceFlattening/itkQuadEdgeMeshParam.hxx:178-190 | The system is the assembled one: symmetric, with the boundary moments as right-hand sides, every ring edge written and zero between points no ring links. The solution is the solver's on exactly that system. |
| QuadEdgeMeshParam.MeshParam.ParameteriseInterior | ARCHIVE/BRAINSSurfaceTools/BRAINSSurfaceFlattening/itkQuadEdgeMeshParam.hxx:176-204 | The interior map is the numbering, and each interior point becomes (x[i], y[i], 0). Every other point is unchanged. (x, y) is the solver's result on the assembled system for the final positions. |
| QuadEdgeMeshParam.MeshParam.FlattenWithBorder | ARCHIVE/BRAINSSurfaceTools/BRAINSSurfaceFlattening/itkQuadEdgeMeshParam.hxx:174-204 | Boundary points are at their border positions. Each interior point numbered i is at (X[i], Y[i], 0) of the solver's result on the system assembled from those border positions. |
| QuadEdgeMeshParam.MeshParam.GenerateData | ARCHIVE/BRAINSSurfaceTools/BRAINSSurfaceFlattening/itkQuadEdgeMeshParam.hxx:157-205 | The border and boundary map come from the transform when one is set. It fails iff either has 2 or fewer elements. On success boundary points sit on the border and the interior is numbered consecutively. Each interior point numbered i is at (X[i], Y[i], 0) of the solver's result on the assembled system. |
| DiffusionTensorReader.Flattened | ARCHIVE/BRAINSSurfaceTools/vtkITK/vtkITKArchetypeDiffusionTensorImageReaderFile.cxx:106-114 | The tensor entry (i, j) is stored at slot i+3j of 9. |
| DiffusionTensorReader.Unflattened | ARCHIVE/BRAINSSurfaceTools/vtkITK/vtkITKArchetypeDiffusionTensorImageReaderFile.cxx:106-114 | Nine values read back as a 3x3 tensor. |
| DiffusionTensorReader.SlotBijective | ARCHIVE/BRAINSSurfaceTools/vtkITK/vtkITKArchetypeDiffusionTensorImageReaderFile.cxx:108-114 | Slot i+3j is in range, different (i, j) give different slots, and every slot is written. |
| DiffusionTensorReader.UnflattenFlattened | ARCHIVE/BRAINSSurfaceTools/vtkITK/vtkITKArchetypeDiffusionTensorImageReaderFile.cxx:106-114 | Unflattening recovers the tensor. |
| DiffusionTensorReader.FlattenUnflattened | ARCHIVE/BRAINSSurfaceTools/vtkITK/vtkITKArchetypeDiffusionTensorImageReaderFile.cxx:106-114 | Flattening recovers the nine values. |
| DiffusionTensorReader.FlattenTensor | ARCHIVE/BRAINSSurfaceTools/vtkITK/vtkITKArchetypeDiffusionTensorImageReaderFile.cxx:106-114 | The nested loop fills a fresh 9-array equal to `Flattened`. |
| DiffusionTensorReader.WrittenPositions | ARCHIVE/BRAINSSurfaceTools/vtkITK/vtkITKArchetypeDiffusionTensorImageReaderFile.cxx:97-116 | Every written tuple lies below the tuple count, has 9 values and is the position of some voxel. |
| DiffusionTensorReader.WrittenLookup | ARCHIVE/BRAINSSurfaceTools/vtkITK/vtkITKArchetypeDiffusionTensorImageReaderFile.cxx:97-116 | A voxel's position that no later voxel overwrites holds its flattened tensor. |
| DiffusionTensorReader.ReadBack | ARCHIVE/BRAINSSurfaceTools/vtkITK/vtkITKArchetypeDiffusionTensorImageReaderFile.cxx:97-116 | The tuple at such a position unflattens to that voxel's tensor. |
| DiffusionTensorReader.TensorArray.constructor | ARCHIVE/BRAINSSurfaceTools/vtkITK/vtkITKArchetypeDiffusionTensorImageReaderFile.cxx:155-156 | A new array has 1 component and no tuples. |
| DiffusionTensorReader.ExecuteDataFromFile | ARCHIVE/BRAINSSurfaceTools/vtkITK/vtkITKArchetypeDiffusionTensorImageReaderFile.cxx:82-116 | A component count other than 6 or 9 fails before any write. Otherwise the array gets 9 components and one tuple per point. It passes iff every voxel is found, writing exactly the flattened tensors. On failure the first rejected voxel stops it, after its predecessors were written. |
| DiffusionTensorReader.ArchetypeTensorReader.constructor | ARCHIVE/BRAINSSurfaceTools/vtkITK/vtkITKArchetypeDiffusionTensorImageReaderFile.cxx:142 | A reader starts with the empty extent and no tensors attached. |
| DiffusionTensorReader.ArchetypeTensorReader.RequestData | ARCHIVE/BRAINSSurfaceTools/vtkITK/vtkITKArchetypeDiffusionTensorImageReaderFile.cxx:127-178 | Without an archetype it reports an error and returns 0. Otherwise it sets origin 0, spacing 1 and the update extent. Tensors are filled only with exactly one file name; any other number is reported, leaves the attached tensors alone, and the method returns 1. An exception from the fill passes through and leaves the attached tensors alone too. |
| ConstellationDetector.ToShort | BRAINSConstellationDetector/src/BRAINSConstellationDetector2.hxx:125 | The result lies in the short range, is congruent to the input modulo 65536, and keeps in-range values. |
| ConstellationDetector.BackgroundFillValue | BRAINSConstellationDetector/src/BRAINSConstellationDetector2.hxx:118-126 | "BIGNEG" gives -32768. Other text is parsed and stored as a short; a parse failure is an error. |
| ConstellationDetector.FillValueInShortRange | BRAINSConstellationDetector/src/BRAINSConstellationDetector2.hxx:118-126 | A parsed value within the short range is kept unchanged. |
| ConstellationDetector.ChooseRadius | BRAINSConstellationDetector/src/BRAINSConstellationDetector2.hxx:142-145 | A user radius <= 0 takes the model's radius; otherwise the user's. |
| ConstellationDetector.TemplateRadii | BRAINSConstellationDetector/src/BRAINSConstellationDetector2.hxx:140-150 | Each of RP, AC, PC and VN4 is chosen independently. |
| ConstellationDetector.TemplateRadiiProperties | BRAINSConstellationDetector/src/BRAINSConstellationDetector2.hxx:140-150 | The default overrides of -1 keep the model. Choosing again after the model update changes nothing, and positive model radii stay positive. |
| ConstellationDetector.EyeFailureIsOutOfPlace | BRAINSConstellationDetector/src/BRAINSConstellationDetector2.hxx:333-339 | Failure holds iff not (15 <= LE.x <= 45, -45 <= RE.x <= -15, and both z <= 0). |
| ConstellationDetector.EyeFailureMessage | BRAINSConstellationDetector/src/BRAINSConstellationDetector2.hxx:343-355 | The message is "eyes lower than AC" iff either z > 0; otherwise it is the range message carrying both x values. |
| ConstellationDetector.Touch | BRAINSConstellationDetector/src/BRAINSConstellationDetector2.hxx:337-372 | Reading names through the map's subscript operator inserts every missing one as the zero point and keeps the others. |
| ConstellationDetector.MissingEyeFails | BRAINSConstellationDetector/src/BRAINSConstellationDetector2.hxx:337-339 | A missing left eye makes the check fail. |
| ConstellationDetector.Detector.constructor | BRAINSConstellationDetector/src/BRAINSConstellationDetector2.hxx:42-106 | The defaults include MSP quality 2, rescale range [40, 4000], fill "0", interpolation "Linear" and every radius -1. |
| ConstellationDetector.Detector.GenerateData | BRAINSConstellationDetector/src/BRAINSConstellationDetector2.hxx:118-374 | A fill-value parse error propagates. Otherwise it returns the fill value and radii. A manual fix is reported iff the eye check fails, with the matching message. The branded image is made iff its name is non-empty. The aligned map ends with exactly the landmarks read. |
| RefacerPresets.ResolutionProperties | ARCHIVE/BRAINSRefacer/BRAINSRefacer.cxx:45-55 | After resolution at most one of default, bird, baby and reuse is on, and the seed switch is unchanged. A single switch is left alone; with several, default is on and reuse is off. |
| RefacerPresets.PresetParametersProperties | ARCHIVE/BRAINSRefacer/BRAINSRefacer.cxx:57-104 | Every preset gives minRandom <= maxRandom and scale 0.05. Without a preset the user's values stay, and the seeded preset equals the default one. |
| RefacerPresets.ResolveOptions | ARCHIVE/BRAINSRefacer/BRAINSRefacer.cxx:42-104 | Verbose is set iff verbose or debug. "Too many presets" holds iff more than one switch is on. The switches are the resolved ones, and the parameters are the priority-ordered table entry. |
| RefacerPresets.CheckReusedBSpline | ARCHIVE/BRAINSRefacer/BRAINSRefacer.cxx:258-279 | The check accepts iff the file reads and its first transform is a BSplineTransform. An unreadable file is its own error; otherwise the error names the class. |
| TimeSeriesDatabase.ToInt32 | ARCHIVE/BRAINSSurfaceTools/vtkITK/vtkITKTimeSeriesDatabase.cxx:41-46 | Storing in an int keeps the value modulo 2^32 in the int range, and keeps in-range values. |
| TimeSeriesDatabase.Extent | ARCHIVE/BRAINSSurfaceTools/vtkITK/vtkITKTimeSeriesDatabase.cxx:39-46 | extent[2k] = index[k] and extent[2k+1] = index[k] + size[k] - 1, both as ints. |
| TimeSeriesDatabase.RegionIndex | ARCHIVE/BRAINSSurfaceTools/vtkITK/vtkITKTimeSeriesDatabase.cxx:41-46 | The start index of an extent is its even slots. |
| TimeSeriesDatabase.RegionSize | ARCHIVE/BRAINSSurfaceTools/vtkITK/vtkITKTimeSeriesDatabase.cxx:41-46 | The size on an axis is last - first + 1. |
| TimeSeriesDatabase.ExtentRoundTrip | ARCHIVE/BRAINSSurfaceTools/vtkITK/vtkITKTimeSeriesDatabase.cxx:41-46 | When the values fit an int, the extent gives back the region's index and, on every axis, extent[2k+1] - extent[2k] + 1 = size[k]. |
| TimeSeriesDatabase.EmptyAxisExtent | ARCHIVE/BRAINSSurfaceTools/vtkITK/vtkITKTimeSeriesDatabase.cxx:41-46 | An empty axis gives a last index one below the first. |
| TimeSeriesDatabase.RegionToExtent | ARCHIVE/BRAINSSurfaceTools/vtkITK/vtkITKTimeSeriesDatabase.cxx:39-46 | The six-int array written slot by slot equals `Extent`. |
| TimeSeriesDatabase.TimeSeriesSource.constructor | ARCHIVE/BRAINSSurfaceTools/vtkITK/vtkITKTimeSeriesDatabase.cxx:40 | A source wraps the filter's spacing, origin and region; no output information is set yet. |
| TimeSeriesDatabase.TimeSeriesSource.RequestInformation | ARCHIVE/BRAINSSurfaceTools/vtkITK/vtkITKTimeSeriesDatabase.cxx:22-50 | Spacing and origin are copied for the three axes and the whole extent is `Extent`. The scalars are single-component shorts, and the status is 1. |
| RefacerDeformationCheck.MaskFor | ARCHIVE/BRAINSRefacer/TestSuite/BRAINSRefacerCheckDeformationAreaLabelMap.cxx:78-95 | Both masks use label 0 and background 0, negated iff checkNonDeformedArea. |
| RefacerDeformationCheck.Masked | ARCHIVE/BRAINSRefacer/TestSuite/BRAINSRefacerCheckDeformationAreaLabelMap.cxx:78-95 | A kept pixel keeps its value; the others become the background. |
| RefacerDeformationCheck.AbsDiffSumZero | ARCHIVE/BRAINSRefacer/TestSuite/BRAINSRefacerCheckDeformationAreaLabelMap.cxx:97-107 | The sum of absolute differences is 0 iff the images are equal. |
| RefacerDeformationCheck.Decision | ARCHIVE/BRAINSRefacer/TestSuite/BRAINSRefacerCheckDeformationAreaLabelMap.cxx:104-136 | In non-deformed mode the check succeeds iff the sum is 0; otherwise iff the sum is > 0. A statistics exception fails. |
| RefacerDeformationCheck.CheckDeformation | ARCHIVE/BRAINSRefacer/TestSuite/BRAINSRefacerCheckDeformationAreaLabelMap.cxx:78-136 | A statistics exception fails. Otherwise non-deformed mode succeeds iff the two masked images are equal, and deformed mode iff they differ. |
| RefacerDeformationCheck.CheckDeformationMeaning | ARCHIVE/BRAINSRefacer/TestSuite/BRAINSRefacerCheckDeformationAreaLabelMap.cxx:78-131 | Non-deformed mode succeeds iff the images agree on every pixel with label != 0. Deformed mode succeeds iff they differ on some pixel with label 0. |

## Left out

- Toolkit pipeline mechanics are not modelled: `Update`, inputs and outputs, smart pointers, readers and writers, progress reporting, and printing of messages.
- The comparison filter's pass is modelled on one-dimensional images in a single thread; the per-thread accumulator arrays become one accumulator. The radius clamp is modelled for any dimension. The N-dimensional boundary-face split is modelled by its effect: a pixel whose neighbourhood leaves the image.
- Pixel values of the comparison filter are integers; its casts between real and output pixel type are the identity.
- ComparisonImageFilter.ComparisonFilter.AfterThreadedGenerateData: requires at least one pixel in the region. The source would divide by zero on an empty region.
- ComparisonImageFilter.ComparisonFilter.Update: requires at least one pixel in the region, for the same reason.
- ComparisonImageFilter.ComputeRadius: the tolerance radius is an unbounded integer; values outside the 32-bit int range are not excluded. The doubling is modelled as wrapping modulo 2^32, which is what the source's overflowing int arithmetic gives in practice.
- ComparisonImageFilter.DifferencePixelCharacterisation: is stated for thresholds of at least 0 only. With a negative threshold an exactly matching pixel is counted although it writes 0.
- Direction normalisation by the two-norm, the logarithm of the attenuation, and the SVD pseudo-inverse solve are not modelled. They are floating point; the attenuation and the solver are function parameters.
- DiffusionTensorReconstruction.TensorReconstructionFilter.ComputeTensorBasis: in the many-images mode a zero direction leaves fewer non-zero directions than the gradient count. The rows would then be read past the index list; the model reports this as `GradientIndexOutOfRange` instead.
- DiffusionTensorReconstruction.TensorReconstructionFilter.ReconstructSingleImage: requires at least one baseline and a gradient count matching the directions, as set by a successful SetGradientImage.
- The dynamic casts of the gradient inputs, and the exception on a failed cast, are not modelled; the inputs arrive already typed.
- Continuous-index delta stepping on the resample linear path is not modelled. Each output pixel's continuous index is given by a function parameter, and the transform evaluation is one too.
- QuadEdgeMeshParam.MeshParam.GenerateData: is stated for the first run of a filter, whose interior map is still empty; the source never clears that map. It also requires that:
  - every ring stays inside the mesh's points;
  - border indices lie in the border;
  - the solver returns vectors of the right-hand sides' lengths.
- The quad-edge `Onext` ring, the coefficient method, and the `SolverTraits` initialisation and solve are not modelled. The rings and coefficients are given as edge lists, and the solver as a function.
- QuadEdgeMeshParam.MeshParam.FillMatrix: states the right-hand sides, the written edges and the untouched entries between unlinked points. It does not give a closed form for the diagonal of the whole matrix; what each ring pass adds to the diagonal is stated by AssembleRing.
- ResampleImageFilter.ResampleFilter.SetOutputParametersFromImage: ITK's global modification time is modelled as a per-object counter that each changing setter advances by one.
- The casts to float in the tensor reader are the identity. The orientation filter is left out. A newly sized VTK array holds unspecified values, so only written tuples are modelled.
- In the tensor reader, `FindPoint` is a function parameter returning -1 or an index.
- The constellation detector's landmark detection, resampling, intensity rescale and trim, image writers and manual-fix files are not modelled. Neither is the inverse transform applied to the landmarks; the detected landmarks are a parameter.
- ConstellationDetector.BackgroundFillValue: `std::stoi` is a parameter; its own out-of-range exception is part of it.
- Everything in the refacer's main after preset handling is not modelled: the mask, the distance map, the B-spline generation and the resampling. The verbose messages are left out too.
- RefacerPresets.CheckReusedBSpline: requires a non-empty transform list, since the source reads the first transform unchecked.
- RefacerDeformationCheck.CheckDeformation: the source's double pixel values and double sum are integers here, so NaN and rounding in the sum are not modelled.
- The label-map check's image reading and resampling are not modelled; the images arrive on one grid. The final "should never get here" failure is unreachable, because every path of the try block returns, so it is not modelled.
