/** The diffusion-tensor archetype reader: reads one tensor image, checks its
    component count, flattens each 3x3 tensor into nine values in column-major
    order and stores them at the output point that has the voxel's index.
    The file reader and the output's point lookup are parameters. */
module DiffusionTensorReader {
  import opened Common

  /** The errors the reader raises (as exceptions) or reports (as VTK errors). */
  datatype Error =
    | WrongComponentCount(components: nat)
    | PointNotFound(index: VoxelIndex)

  type VoxelIndex = (int, int, int)

  /** One voxel of the tensor image: its grid index and its 3x3 tensor. */
  datatype Voxel = Voxel(index: VoxelIndex, tensor: seq<seq<real>>)

  predicate IsTensor(t: seq<seq<real>>) {
    |t| == 3 && |t[0]| == 3 && |t[1]| == 3 && |t[2]| == 3
  }

  /** The component counts accepted as a tensor image: six (symmetric storage)
      or nine (full matrix). */
  predicate AcceptedComponentCount(n: nat) {
    n == 6 || n == 9
  }

  // ---------------------------------------------------------------------------
  // Flattening

  /** The slot of tensor entry (i, j) in the flattened value: column-major. */
  function Slot(i: nat, j: nat): nat {
    i + 3 * j
  }

  /** The flattened tensor: slot k holds entry (k mod 3, k div 3). */
  function Flattened(t: seq<seq<real>>): (value: seq<real>)
    requires IsTensor(t)
    ensures |value| == 9
    ensures forall i, j :: 0 <= i < 3 && 0 <= j < 3 ==> value[Slot(i, j)] == t[i][j]
  {
    seq(9, k requires 0 <= k < 9 => t[k % 3][k / 3])
  }

  /** The inverse of flattening: entry (i, j) is read from slot i + 3j. */
  function Unflattened(value: seq<real>): (t: seq<seq<real>>)
    requires |value| == 9
    ensures IsTensor(t)
  {
    seq(3, i requires 0 <= i < 3 => seq(3, j requires 0 <= j < 3 => value[Slot(i, j)]))
  }

  /** Every slot is the image of exactly one entry: (i, j) -> i + 3j is a
      bijection from the 3x3 grid onto 0..8. */
  lemma SlotBijective()
    ensures forall i, j :: 0 <= i < 3 && 0 <= j < 3 ==> Slot(i, j) < 9
    ensures forall i1, j1, i2, j2 ::
      (0 <= i1 < 3 && 0 <= j1 < 3 && 0 <= i2 < 3 && 0 <= j2 < 3 && Slot(i1, j1) == Slot(i2, j2)) ==>
        i1 == i2 && j1 == j2
    ensures forall k :: 0 <= k < 9 ==> Slot(k % 3, k / 3) == k
  {
  }

  /** Unflattening recovers the tensor. */
  lemma UnflattenFlattened(t: seq<seq<real>>)
    requires IsTensor(t)
    ensures Unflattened(Flattened(t)) == t
  {
    var u := Unflattened(Flattened(t));
    forall i | 0 <= i < 3
      ensures u[i] == t[i]
    {
      forall j | 0 <= j < 3
        ensures u[i][j] == t[i][j]
      {
        assert u[i][j] == Flattened(t)[Slot(i, j)];
      }
    }
  }

  /** Flattening an unflattened value gives the value back. */
  lemma FlattenUnflattened(value: seq<real>)
    requires |value| == 9
    ensures Flattened(Unflattened(value)) == value
  {
    var f := Flattened(Unflattened(value));
    forall k | 0 <= k < 9
      ensures f[k] == value[k]
    {
      assert Slot(k % 3, k / 3) == k;
    }
  }

  /** The nested loop that fills the nine-element value buffer of one voxel. */
  method FlattenTensor(t: seq<seq<real>>) returns (value: array<real>)
    requires IsTensor(t)
    ensures fresh(value) && value[..] == Flattened(t)
  {
    value := new real[9];
    var i := 0;
    while i < 3
      invariant 0 <= i <= 3
      invariant forall i', j :: 0 <= i' < i && 0 <= j < 3 ==> value[Slot(i', j)] == t[i'][j]
    {
      var j := 0;
      while j < 3
        invariant 0 <= j <= 3
        invariant forall i', j' :: 0 <= i' < i && 0 <= j' < 3 ==> value[Slot(i', j')] == t[i'][j']
        invariant forall j' :: 0 <= j' < j ==> value[Slot(i, j')] == t[i][j']
      {
        value[i + 3 * j] := t[i][j];
        j := j + 1;
      }
      i := i + 1;
    }
    forall k | 0 <= k < 9
      ensures value[k] == Flattened(t)[k]
    {
      assert Slot(k % 3, k / 3) == k;
    }
  }

  // ---------------------------------------------------------------------------
  // Filling the tensor array

  /** A position the reader refuses: the lookup's "not found" value -1, or a
      position beyond the tuples allocated for the output's points. */
  predicate Rejected(position: int, tuples: nat) {
    position == -1 || position >= tuples
  }

  /** All tensors of a voxel sequence are 3x3. */
  predicate AllTensors(voxels: seq<Voxel>) {
    forall k :: 0 <= k < |voxels| ==> IsTensor(voxels[k].tensor)
  }

  /** No voxel of the sequence is rejected. */
  predicate AllFound(voxels: seq<Voxel>, findPoint: VoxelIndex -> int, tuples: nat) {
    forall k :: 0 <= k < |voxels| ==> !Rejected(findPoint(voxels[k].index), tuples)
  }

  /** The tuples written by storing the voxels in order: each voxel's flattened
      tensor at its point's position, a later voxel overwriting an earlier one. */
  function Written(voxels: seq<Voxel>, findPoint: VoxelIndex -> int, tuples: nat): map<nat, seq<real>>
    requires AllTensors(voxels)
    requires forall idx :: findPoint(idx) >= -1
    requires AllFound(voxels, findPoint, tuples)
  {
    if voxels == [] then map[]
    else
      var last := voxels[|voxels| - 1];
      Written(voxels[..|voxels| - 1], findPoint, tuples)[findPoint(last.index) as nat := Flattened(last.tensor)]
  }

  /** Only positions of voxels are written, all below the tuple count, each
      with nine values. */
  lemma {:induction false} WrittenPositions(voxels: seq<Voxel>, findPoint: VoxelIndex -> int, tuples: nat)
    requires AllTensors(voxels)
    requires forall idx :: findPoint(idx) >= -1
    requires AllFound(voxels, findPoint, tuples)
    ensures forall p :: p in Written(voxels, findPoint, tuples) ==>
      p < tuples && |Written(voxels, findPoint, tuples)[p]| == 9 &&
      exists k :: 0 <= k < |voxels| && findPoint(voxels[k].index) == p
  {
    if voxels != [] {
      var init := voxels[..|voxels| - 1];
      assert AllTensors(init) && AllFound(init, findPoint, tuples) by {
        forall k | 0 <= k < |init| ensures init[k] == voxels[k] { }
      }
      WrittenPositions(init, findPoint, tuples);
      var w0 := Written(init, findPoint, tuples);
      var last := voxels[|voxels| - 1];
      var w := Written(voxels, findPoint, tuples);
      assert w == w0[findPoint(last.index) as nat := Flattened(last.tensor)];
      forall p | p in w
        ensures p < tuples && |w[p]| == 9 && exists k :: 0 <= k < |voxels| && findPoint(voxels[k].index) == p
      {
        if p != findPoint(last.index) {
          assert p in w0;
          var k :| 0 <= k < |init| && findPoint(init[k].index) == p;
          assert voxels[k] == init[k];
        } else {
          assert findPoint(voxels[|voxels| - 1].index) == p;
        }
      }
    }
  }

  /** A voxel whose position no later voxel shares keeps its flattened tensor
      there. */
  lemma {:induction false} WrittenLookup(voxels: seq<Voxel>, findPoint: VoxelIndex -> int, tuples: nat, k: nat)
    requires AllTensors(voxels)
    requires forall idx :: findPoint(idx) >= -1
    requires AllFound(voxels, findPoint, tuples)
    requires k < |voxels|
    requires forall k' :: k < k' < |voxels| ==> findPoint(voxels[k'].index) != findPoint(voxels[k].index)
    ensures findPoint(voxels[k].index) in Written(voxels, findPoint, tuples)
    ensures Written(voxels, findPoint, tuples)[findPoint(voxels[k].index)] == Flattened(voxels[k].tensor)
  {
    if k < |voxels| - 1 {
      var init := voxels[..|voxels| - 1];
      assert AllTensors(init) && AllFound(init, findPoint, tuples) by {
        forall k' | 0 <= k' < |init| ensures init[k'] == voxels[k'] { }
      }
      assert forall k' :: k <= k' < |init| ==> init[k'] == voxels[k'];
      WrittenLookup(init, findPoint, tuples, k);
    }
  }

  /** Reading back: the tuple at such a voxel's position unflattens to the
      voxel's tensor. */
  lemma ReadBack(voxels: seq<Voxel>, findPoint: VoxelIndex -> int, tuples: nat, k: nat)
    requires AllTensors(voxels)
    requires forall idx :: findPoint(idx) >= -1
    requires AllFound(voxels, findPoint, tuples)
    requires k < |voxels|
    requires forall k' :: k < k' < |voxels| ==> findPoint(voxels[k'].index) != findPoint(voxels[k].index)
    ensures var w := Written(voxels, findPoint, tuples);
      findPoint(voxels[k].index) in w && |w[findPoint(voxels[k].index)]| == 9 &&
      Unflattened(w[findPoint(voxels[k].index)]) == voxels[k].tensor
  {
    WrittenLookup(voxels, findPoint, tuples, k);
    UnflattenFlattened(voxels[k].tensor);
  }

  /** The point data's float array of tensors. */
  class TensorArray {
    var numberOfComponents: nat
    var numberOfTuples: nat
    /** The tuples written so far, by position. */
    var tuples: map<nat, seq<real>>

    constructor ()
      ensures numberOfComponents == 1 && numberOfTuples == 0 && tuples == map[]
    {
      numberOfComponents := 1;
      numberOfTuples := 0;
      tuples := map[];
    }
  }

  /** vtkITKExecuteDataFromFileDiffusionTensor3D: refuses a file whose pixels have
      neither 6 nor 9 components before touching the array; otherwise sizes the
      array to 9 components and one tuple per output point, then stores the
      voxels in order, raising at the first voxel whose position is refused (the
      voxels before it stay written). */
  method ExecuteDataFromFile(tensors: TensorArray, fileComponents: nat, voxels: seq<Voxel>,
                             findPoint: VoxelIndex -> int, numberOfPoints: nat)
    returns (outcome: Outcome<Error>)
    requires AllTensors(voxels)
    requires forall idx :: findPoint(idx) >= -1
    modifies tensors
    ensures !AcceptedComponentCount(fileComponents) ==>
      outcome == Fail(WrongComponentCount(fileComponents)) &&
      tensors.numberOfComponents == old(tensors.numberOfComponents) &&
      tensors.numberOfTuples == old(tensors.numberOfTuples) && tensors.tuples == old(tensors.tuples)
    ensures AcceptedComponentCount(fileComponents) ==>
      tensors.numberOfComponents == 9 && tensors.numberOfTuples == numberOfPoints
    ensures AcceptedComponentCount(fileComponents) ==>
      (outcome.Pass? <==> AllFound(voxels, findPoint, numberOfPoints))
    ensures AcceptedComponentCount(fileComponents) && outcome.Pass? ==>
      tensors.tuples == old(tensors.tuples) + Written(voxels, findPoint, numberOfPoints)
    ensures AcceptedComponentCount(fileComponents) && outcome.Fail? ==>
      exists k :: 0 <= k < |voxels| && outcome == Fail(PointNotFound(voxels[k].index)) &&
        Rejected(findPoint(voxels[k].index), numberOfPoints) &&
        AllFound(voxels[..k], findPoint, numberOfPoints) &&
        tensors.tuples == old(tensors.tuples) + Written(voxels[..k], findPoint, numberOfPoints)
  {
    if !AcceptedComponentCount(fileComponents) {
      return Fail(WrongComponentCount(fileComponents));
    }
    tensors.numberOfComponents := 9;
    tensors.numberOfTuples := numberOfPoints;
    var k := 0;
    while k < |voxels|
      invariant 0 <= k <= |voxels|
      invariant tensors.numberOfComponents == 9 && tensors.numberOfTuples == numberOfPoints
      invariant AllFound(voxels[..k], findPoint, numberOfPoints)
      invariant tensors.tuples == old(tensors.tuples) + Written(voxels[..k], findPoint, numberOfPoints)
    {
      var position := findPoint(voxels[k].index);
      if position == -1 || position >= tensors.numberOfTuples {
        return Fail(PointNotFound(voxels[k].index));
      }
      var value := FlattenTensor(voxels[k].tensor);
      assert voxels[..k + 1][..k] == voxels[..k];
      tensors.tuples := tensors.tuples[position as nat := value[..]];
      k := k + 1;
    }
    assert voxels[..k] == voxels;
    outcome := Pass;
  }

  // ---------------------------------------------------------------------------
  // The reader

  /** What RequestData ends with: a return status, with or without a reported
      VTK error, or an exception raised out of the tensor fill. */
  datatype Completion = Returned(status: int, errorReported: bool) | Raised(error: Error)

  class ArchetypeTensorReader {
    /** Whether an archetype file name was given. */
    var hasArchetype: bool
    var fileNames: seq<string>
    /** Whether OutputScalarType is one of the VTK scalar types the template
        dispatch covers. */
    var scalarTypeKnown: bool
    /** The output image's geometry. */
    var origin: Point3
    var spacing: Point3
    var extent: seq<int>
    /** The tensors attached to the output's point data, if any. */
    var pointTensors: Option<TensorArray>

    constructor (hasArchetype: bool, fileNames: seq<string>, scalarTypeKnown: bool)
      ensures this.hasArchetype == hasArchetype && this.fileNames == fileNames
      ensures this.scalarTypeKnown == scalarTypeKnown
      ensures origin == Point3(0.0, 0.0, 0.0) && spacing == Point3(1.0, 1.0, 1.0)
      ensures extent == [0, -1, 0, -1, 0, -1] && pointTensors == None
    {
      this.hasArchetype := hasArchetype;
      this.fileNames := fileNames;
      this.scalarTypeKnown := scalarTypeKnown;
      origin := Point3(0.0, 0.0, 0.0);
      spacing := Point3(1.0, 1.0, 1.0);
      extent := [0, -1, 0, -1, 0, -1];
      pointTensors := None;
    }

    /** RequestData: without an archetype, reports an error and returns 0 leaving
        the output alone. Otherwise gives the output origin 0, spacing 1 and the
        requested update extent; with exactly one file name it fills a new tensor
        array from that file and attaches it (an exception from the fill passes
        through), with any other number it reports an error; it then returns 1. */
    method RequestData(updateExtent: seq<int>, fileComponents: nat, voxels: seq<Voxel>,
                       findPoint: VoxelIndex -> int, numberOfPoints: nat)
      returns (completion: Completion)
      requires |updateExtent| == 6
      requires AllTensors(voxels)
      requires forall idx :: findPoint(idx) >= -1
      modifies this`origin, this`spacing, this`extent, this`pointTensors
      ensures !hasArchetype ==>
        completion == Returned(0, true) &&
        origin == old(origin) && spacing == old(spacing) && extent == old(extent) && pointTensors == old(pointTensors)
      ensures hasArchetype ==>
        origin == Point3(0.0, 0.0, 0.0) && spacing == Point3(1.0, 1.0, 1.0) && extent == updateExtent
      ensures hasArchetype && |fileNames| != 1 ==>
        completion == Returned(1, true) && pointTensors == old(pointTensors)
      ensures hasArchetype && |fileNames| == 1 && !scalarTypeKnown ==>
        completion == Returned(1, true) && pointTensors.Some? &&
        pointTensors.value.numberOfComponents == 1 && pointTensors.value.tuples == map[]
      ensures hasArchetype && |fileNames| == 1 && scalarTypeKnown ==>
        (completion.Raised? <==>
           !AcceptedComponentCount(fileComponents) || !AllFound(voxels, findPoint, numberOfPoints))
      ensures completion.Raised? ==> pointTensors == old(pointTensors)
      ensures hasArchetype && |fileNames| == 1 && scalarTypeKnown && completion.Returned? ==>
        completion == Returned(1, false) && pointTensors.Some? &&
        pointTensors.value.numberOfComponents == 9 &&
        pointTensors.value.numberOfTuples == numberOfPoints &&
        pointTensors.value.tuples == Written(voxels, findPoint, numberOfPoints)
    {
      if !hasArchetype {
        return Returned(0, true);
      }
      origin := Point3(0.0, 0.0, 0.0);
      spacing := Point3(1.0, 1.0, 1.0);
      extent := updateExtent;
      var tensors := new TensorArray();
      if |fileNames| == 1 {
        var reported := false;
        if scalarTypeKnown {
          var outcome := ExecuteDataFromFile(tensors, fileComponents, voxels, findPoint, numberOfPoints);
          if outcome.Fail? {
            return Raised(outcome.error);
          }
          assert map[] + Written(voxels, findPoint, numberOfPoints) == Written(voxels, findPoint, numberOfPoints);
        } else {
          reported := true;
        }
        pointTensors := Some(tensors);
        return Returned(1, reported);
      } else {
        return Returned(1, true);
      }
    }
  }
}
