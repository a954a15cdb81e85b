/** RequestInformation of the time-series database source: the output spacing
    and origin are copied from the wrapped filter, its output region becomes the
    whole extent (first and last index per axis, stored as 32-bit ints), and the
    active scalars are declared as single-component shorts. */
module TimeSeriesDatabase {

  /** C++ int: a 64-bit index or size stored in an int keeps its low 32 bits. */
  function ToInt32(v: int): (r: int)
    ensures -0x8000_0000 <= r < 0x8000_0000
    ensures -0x8000_0000 <= v < 0x8000_0000 ==> r == v
    ensures (r - v) % 0x1_0000_0000 == 0
  {
    (v + 0x8000_0000) % 0x1_0000_0000 - 0x8000_0000
  }

  predicate FitsInt32(v: int) {
    -0x8000_0000 <= v < 0x8000_0000
  }

  /** The extent of a region: for axis k, slot 2k is the first index and slot
      2k+1 the last one, index + size - 1. */
  function Extent(index: seq<int>, size: seq<nat>): (e: seq<int>)
    requires |index| == 3 && |size| == 3
    ensures |e| == 6
    ensures forall k :: 0 <= k < 3 ==> e[2 * k] == ToInt32(index[k]) && e[2 * k + 1] == ToInt32(index[k] + size[k] - 1)
  {
    [ToInt32(index[0]), ToInt32(index[0] + size[0] - 1),
     ToInt32(index[1]), ToInt32(index[1] + size[1] - 1),
     ToInt32(index[2]), ToInt32(index[2] + size[2] - 1)]
  }

  /** The region an extent describes: first index and number of indices per
      axis. */
  function RegionIndex(e: seq<int>): (index: seq<int>)
    requires |e| == 6
    ensures |index| == 3 && forall k :: 0 <= k < 3 ==> index[k] == e[2 * k]
  {
    [e[0], e[2], e[4]]
  }

  function RegionSize(e: seq<int>): (size: seq<int>)
    requires |e| == 6
    ensures |size| == 3 && forall k :: 0 <= k < 3 ==> size[k] == e[2 * k + 1] - e[2 * k] + 1
  {
    [e[1] - e[0] + 1, e[3] - e[2] + 1, e[5] - e[4] + 1]
  }

  /** When the first and last index of every axis fit in an int, the extent
      describes exactly the region it was made from: last - first + 1 is the size
      on every axis. */
  lemma ExtentRoundTrip(index: seq<int>, size: seq<nat>)
    requires |index| == 3 && |size| == 3
    requires forall k :: 0 <= k < 3 ==> FitsInt32(index[k]) && FitsInt32(index[k] + size[k] - 1)
    ensures RegionIndex(Extent(index, size)) == index
    ensures RegionSize(Extent(index, size)) == size
  {
    var e := Extent(index, size);
    forall k | 0 <= k < 3
      ensures RegionSize(e)[k] == size[k]
    {
      assert e[2 * k] == index[k] && e[2 * k + 1] == index[k] + size[k] - 1;
    }
  }

  /** An empty axis (size 0) gives an empty extent on that axis: its last index
      is one below its first. */
  lemma EmptyAxisExtent(index: seq<int>, size: seq<nat>, k: nat)
    requires |index| == 3 && |size| == 3 && k < 3
    requires size[k] == 0 && FitsInt32(index[k]) && FitsInt32(index[k] - 1)
    ensures Extent(index, size)[2 * k + 1] == Extent(index, size)[2 * k] - 1
  {
    assert Extent(index, size)[2 * k] == index[k];
  }

  /** The six-int extent array written slot by slot from a region. */
  method RegionToExtent(index: seq<int>, size: seq<nat>) returns (extent: array<int>)
    requires |index| == 3 && |size| == 3
    ensures fresh(extent) && extent[..] == Extent(index, size)
  {
    extent := new int[6];
    extent[0] := ToInt32(index[0]);
    extent[1] := ToInt32(index[0] + size[0] - 1);
    extent[2] := ToInt32(index[1]);
    extent[3] := ToInt32(index[1] + size[1] - 1);
    extent[4] := ToInt32(index[2]);
    extent[5] := ToInt32(index[2] + size[2] - 1);
  }

  /** VTK's type code for short. */
  const VtkShort: int := 4

  class TimeSeriesSource {
    /** The wrapped filter's output spacing, origin and region. */
    var filterSpacing: seq<real>
    var filterOrigin: seq<real>
    var regionIndex: seq<int>
    var regionSize: seq<nat>
    /** The output information. */
    var spacing: seq<real>
    var origin: seq<real>
    var wholeExtent: seq<int>
    var scalarType: int
    var scalarComponents: nat

    constructor (filterSpacing: seq<real>, filterOrigin: seq<real>, regionIndex: seq<int>, regionSize: seq<nat>)
      ensures this.filterSpacing == filterSpacing && this.filterOrigin == filterOrigin
      ensures this.regionIndex == regionIndex && this.regionSize == regionSize
      ensures spacing == [] && origin == [] && wholeExtent == [] && scalarType == 0 && scalarComponents == 0
    {
      this.filterSpacing := filterSpacing;
      this.filterOrigin := filterOrigin;
      this.regionIndex := regionIndex;
      this.regionSize := regionSize;
      spacing := [];
      origin := [];
      wholeExtent := [];
      scalarType := 0;
      scalarComponents := 0;
    }

    /** RequestInformation: copies the first three spacing and origin
        components, sets the whole extent from the region, declares
        single-component short scalars and returns 1. */
    method RequestInformation() returns (status: int)
      requires |filterSpacing| >= 3 && |filterOrigin| >= 3
      requires |regionIndex| == 3 && |regionSize| == 3
      modifies this`spacing, this`origin, this`wholeExtent, this`scalarType, this`scalarComponents
      ensures spacing == filterSpacing[..3] && origin == filterOrigin[..3]
      ensures wholeExtent == Extent(regionIndex, regionSize)
      ensures scalarType == VtkShort && scalarComponents == 1
      ensures status == 1
    {
      var s := new real[3];
      var o := new real[3];
      var i := 0;
      while i < 3
        invariant 0 <= i <= 3
        invariant s[..i] == filterSpacing[..i] && o[..i] == filterOrigin[..i]
      {
        s[i] := filterSpacing[i];
        o[i] := filterOrigin[i];
        i := i + 1;
      }
      spacing := s[..];
      origin := o[..];
      var extent := RegionToExtent(regionIndex, regionSize);
      wholeExtent := extent[..];
      scalarType := VtkShort;
      scalarComponents := 1;
      status := 1;
    }
  }
}
