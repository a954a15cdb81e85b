/** Assembly of the linear systems of itk::QuadEdgeMeshParam, the planar
    parameterisation of a mesh with a fixed border.

    Boundary points are placed on the border; interior points are numbered
    0 .. k-1 in point-container order; for every interior point the ring of edges
    around it contributes to a sparse, symmetric Laplacian-style matrix and to two
    right-hand sides (x and y); the solved coordinates are written back as
    (x, y, 0). The ring of a point (the Onext walk starting from its first edge) is
    given as a sequence of edges, each with its destination and the weight the
    coefficient method computes for it; the border transform and the linear solver
    are given as values and functions. */
module QuadEdgeMeshParam {
  import opened Common

  /** An edge of a point's ring: its destination point and its coefficient. */
  datatype Edge = Edge(destination: nat, weight: real)

  /** A sparse matrix: entries not present are zero. */
  type SparseMatrix = map<(nat, nat), real>

  datatype Error = BorderTooSmall

  function Entry(m: SparseMatrix, i: nat, j: nat): real {
    if (i, j) in m then m[(i, j)] else 0.0
  }

  /** SolverTraits::AddToMatrix: adds v to entry (i, j). */
  function AddToMatrix(m: SparseMatrix, i: nat, j: nat, v: real): (r: SparseMatrix)
    ensures Entry(r, i, j) == Entry(m, i, j) + v
    ensures forall p: nat, q: nat :: (p, q) != (i, j) ==> Entry(r, p, q) == Entry(m, p, q)
  {
    m[(i, j) := Entry(m, i, j) + v]
  }

  /** SolverTraits::FillMatrix: sets entry (i, j) to v. */
  function SetEntry(m: SparseMatrix, i: nat, j: nat, v: real): (r: SparseMatrix)
    ensures Entry(r, i, j) == v
    ensures forall p: nat, q: nat :: (p, q) != (i, j) ==> Entry(r, p, q) == Entry(m, p, q)
  {
    m[(i, j) := v]
  }

  ghost predicate Symmetric(m: SparseMatrix) {
    forall i: nat, j: nat :: Entry(m, i, j) == Entry(m, j, i)
  }

  predicate Distinct(ids: seq<nat>) {
    forall a, b :: 0 <= a < b < |ids| ==> ids[a] != ids[b]
  }

  /** A numbering that gives different points different numbers. */
  predicate Injective(numbering: map<nat, nat>) {
    forall p, q :: p in numbering && q in numbering && p != q ==> numbering[p] != numbering[q]
  }

  // ---------------------------------------------------------------------------
  // Interior numbering

  /** How many of the ids are not boundary points. */
  function InteriorCount(ids: seq<nat>, boundary: set<nat>): nat {
    if ids == [] then 0
    else InteriorCount(ids[..|ids| - 1], boundary) + (if ids[|ids| - 1] in boundary then 0 else 1)
  }

  /** The interior numbering of a point container: every non-boundary id gets the
      number of non-boundary ids before it. */
  function Numbering(ids: seq<nat>, boundary: set<nat>): map<nat, nat> {
    if ids == [] then map[]
    else
      var init := ids[..|ids| - 1];
      var id := ids[|ids| - 1];
      if id in boundary then Numbering(init, boundary)
      else Numbering(init, boundary)[id := InteriorCount(init, boundary)]
  }

  /** For a container of distinct ids the numbering has the non-boundary ids as
      keys, numbers them 0 .. k-1 increasing in container order, and uses every
      number below k: a bijection onto [0, k). */
  lemma {:induction false} NumberingIsConsecutive(ids: seq<nat>, boundary: set<nat>)
    requires Distinct(ids)
    ensures var n := Numbering(ids, boundary);
      (forall id :: id in n <==> id in ids && id !in boundary) &&
      (forall id :: id in n ==> n[id] < InteriorCount(ids, boundary)) &&
      (forall a, b :: 0 <= a < b < |ids| && ids[a] !in boundary && ids[b] !in boundary ==> n[ids[a]] < n[ids[b]]) &&
      (forall j :: 0 <= j < InteriorCount(ids, boundary) ==> j in n.Values)
  {
    if ids != [] {
      var last := |ids| - 1;
      var init := ids[..last];
      var id := ids[last];
      assert Distinct(init);
      NumberingIsConsecutive(init, boundary);
      var n0 := Numbering(init, boundary);
      assert forall a :: 0 <= a < last ==> init[a] == ids[a];
      assert id !in init;
      if id !in boundary {
        var c := InteriorCount(init, boundary);
        var n := n0[id := c];
        forall j | 0 <= j < c + 1
          ensures j in n.Values
        {
          if j < c {
            assert j in n0.Values;
            var x :| x in n0 && n0[x] == j;
            assert x != id && n[x] == j;
          } else {
            assert n[id] == j;
          }
        }
        forall a, b | 0 <= a < b < |ids| && ids[a] !in boundary && ids[b] !in boundary
          ensures n[ids[a]] < n[ids[b]]
        {
          if b < last {
            assert ids[a] == init[a] && ids[b] == init[b];
          } else {
            assert ids[a] in n0;
          }
        }
      } else {
        forall a, b | 0 <= a < b < |ids| && ids[a] !in boundary && ids[b] !in boundary
          ensures n0[ids[a]] < n0[ids[b]]
        {
          assert b < last;
          assert ids[a] == init[a] && ids[b] == init[b];
        }
      }
    }
  }

  /** Different interior points of a container of distinct ids get different numbers. */
  lemma NumberingInjective(ids: seq<nat>, boundary: set<nat>)
    requires Distinct(ids)
    ensures Injective(Numbering(ids, boundary))
  {
    NumberingIsConsecutive(ids, boundary);
    var n := Numbering(ids, boundary);
    forall p, q | p in n && q in n && p != q
      ensures n[p] != n[q]
    {
      var a :| 0 <= a < |ids| && ids[a] == p;
      var b :| 0 <= b < |ids| && ids[b] == q;
      if a < b {
        assert n[ids[a]] < n[ids[b]];
      } else {
        assert n[ids[b]] < n[ids[a]];
      }
    }
  }

  /** The interior map of a container of distinct ids has as many entries as there
      are interior ids. */
  lemma {:induction false} NumberingSize(ids: seq<nat>, boundary: set<nat>)
    requires Distinct(ids)
    ensures |Numbering(ids, boundary)| == InteriorCount(ids, boundary)
  {
    if ids != [] {
      var init := ids[..|ids| - 1];
      assert Distinct(init);
      NumberingSize(init, boundary);
      NumberingIsConsecutive(init, boundary);
      assert ids[|ids| - 1] !in init;
    }
  }

  // ---------------------------------------------------------------------------
  // Ring contributions

  /** Component axis of a point: 0 is x, 1 is y. */
  function Coordinate(p: Point3, axis: nat): real {
    if axis == 0 then p.x else p.y
  }

  /** The sum of coordinate * weight over the ring edges that end at a boundary
      point with a position: the right-hand-side entry of the ring's centre. */
  function BoundaryMoment(ring: seq<Edge>, boundary: map<nat, nat>, points: map<nat, Point3>, axis: nat): real {
    if ring == [] then 0.0
    else
      var e := ring[|ring| - 1];
      BoundaryMoment(ring[..|ring| - 1], boundary, points, axis) +
      (if e.destination in boundary && e.destination in points
       then Coordinate(points[e.destination], axis) * e.weight else 0.0)
  }

  /** The weight the ring adds to its centre's diagonal entry: every edge to a
      boundary point, and every edge to an interior point numbered above the centre. */
  function DiagonalGain(ring: seq<Edge>, boundary: map<nat, nat>, internal: map<nat, nat>, centre: nat): real {
    if ring == [] then 0.0
    else
      var e := ring[|ring| - 1];
      DiagonalGain(ring[..|ring| - 1], boundary, internal, centre) +
      (if e.destination in boundary then e.weight
       else if e.destination in internal && centre < internal[e.destination] then e.weight else 0.0)
  }

  function Destinations(ring: seq<Edge>): seq<nat> {
    seq(|ring|, t requires 0 <= t < |ring| => ring[t].destination)
  }

  /** Every destination of the ring is a boundary point with an output position or a
      numbered interior point. */
  predicate RingResolved(ring: seq<Edge>, boundary: map<nat, nat>, internal: map<nat, nat>, points: map<nat, Point3>) {
    forall t :: 0 <= t < |ring| ==>
      (ring[t].destination in boundary && ring[t].destination in points) ||
      (ring[t].destination !in boundary && ring[t].destination in internal)
  }

  /** An edge from the centre to an interior point numbered j above the centre i
      has left -w at both (i, j) and (j, i). */
  ghost predicate EdgeWritten(m: SparseMatrix, centre: nat, e: Edge, boundary: map<nat, nat>, internal: map<nat, nat>) {
    e.destination !in boundary && e.destination in internal && centre < internal[e.destination] ==>
      Entry(m, centre, internal[e.destination]) == -e.weight && Entry(m, internal[e.destination], centre) == -e.weight
  }

  /** Every interior edge of a ring without repeated destinations is written. */
  ghost predicate RingWritten(m: SparseMatrix, centre: nat, ring: seq<Edge>, boundary: map<nat, nat>, internal: map<nat, nat>) {
    Distinct(Destinations(ring)) ==> forall t :: 0 <= t < |ring| ==> EdgeWritten(m, centre, ring[t], boundary, internal)
  }

  /** Off-diagonal entries other than (centre, j) and (j, centre) with j above the
      centre are as in m0. */
  ghost predicate OffDiagonalKept(m: SparseMatrix, m0: SparseMatrix, centre: nat) {
    forall p: nat, q: nat :: p != q && !(p == centre && q > centre) && !(q == centre && p > centre) ==>
      Entry(m, p, q) == Entry(m0, p, q)
  }

  /** The weight the ring of centre adds to the diagonal entry of the interior
      point numbered p: every edge to p when p is numbered above the centre. */
  function NeighbourGain(ring: seq<Edge>, boundary: map<nat, nat>, internal: map<nat, nat>, centre: nat, p: nat): real {
    if ring == [] then 0.0
    else
      var e := ring[|ring| - 1];
      NeighbourGain(ring[..|ring| - 1], boundary, internal, centre, p) +
      (if e.destination !in boundary && e.destination in internal && centre < internal[e.destination] &&
          internal[e.destination] == p
       then e.weight else 0.0)
  }

  /** The numbers above the centre that the ring's interior edges reach. */
  function Reached(ring: seq<Edge>, boundary: map<nat, nat>, internal: map<nat, nat>, centre: nat): (r: set<nat>)
    ensures forall q :: q in r ==> centre < q
  {
    if ring == [] then {}
    else
      var e := ring[|ring| - 1];
      Reached(ring[..|ring| - 1], boundary, internal, centre) +
      (if e.destination !in boundary && e.destination in internal && centre < internal[e.destination]
       then {internal[e.destination]} else {})
  }

  /** Only the off-diagonal entries between the centre and the reached numbers
      differ from m0. */
  ghost predicate OnlyReachedChanged(m: SparseMatrix, m0: SparseMatrix, centre: nat, reached: set<nat>) {
    forall p: nat, q: nat :: p != q && !(p == centre && q in reached) && !(q == centre && p in reached) ==>
      Entry(m, p, q) == Entry(m0, p, q)
  }

  /** Some ring among those of ids, namely that of the point numbered p, has an
      interior edge to the point numbered q above p. */
  ghost predicate Linked(ring: nat -> seq<Edge>, boundary: map<nat, nat>, internal: map<nat, nat>, ids: set<nat>,
                         p: nat, q: nat) {
    exists id :: id in ids && id in internal && internal[id] == p && q in Reached(ring(id), boundary, internal, p)
  }

  /** After the ring pass of id1, an entry above the diagonal that no finished ring
      links, id1's included, is still as in m0. */
  lemma UnlinkedEntriesKept(m0: SparseMatrix, before: SparseMatrix, m: SparseMatrix, ring: nat -> seq<Edge>,
                            boundary: map<nat, nat>, internal: map<nat, nat>, done: set<nat>, id1: nat)
    requires id1 in internal
    requires forall p: nat, q: nat :: p < q && !Linked(ring, boundary, internal, done, p, q) ==>
      Entry(before, p, q) == Entry(m0, p, q)
    requires OnlyReachedChanged(m, before, internal[id1], Reached(ring(id1), boundary, internal, internal[id1]))
    ensures forall p: nat, q: nat :: p < q && !Linked(ring, boundary, internal, done + {id1}, p, q) ==>
      Entry(m, p, q) == Entry(m0, p, q)
  {
    forall p: nat, q: nat | p < q && !Linked(ring, boundary, internal, done + {id1}, p, q)
      ensures Entry(m, p, q) == Entry(m0, p, q)
    {
      if p == internal[id1] {
        assert q !in Reached(ring(id1), boundary, internal, p);
      }
    }
  }

  /** The ring pass of another centre does not disturb what this ring wrote. */
  lemma RingWrittenKept(m0: SparseMatrix, m: SparseMatrix, centre: nat, ring: seq<Edge>, other: nat,
                        boundary: map<nat, nat>, internal: map<nat, nat>)
    requires RingWritten(m0, centre, ring, boundary, internal)
    requires OffDiagonalKept(m, m0, other) && other != centre
    ensures RingWritten(m, centre, ring, boundary, internal)
  {
    if Distinct(Destinations(ring)) {
      forall t | 0 <= t < |ring|
        ensures EdgeWritten(m, centre, ring[t], boundary, internal)
      {
        assert EdgeWritten(m0, centre, ring[t], boundary, internal);
      }
    }
  }

  /** The four updates for an edge between interior points numbered i < j: -w at
      (i, j) and (j, i), +w on both diagonal entries, nothing else. */
  function ConnectInterior(m: SparseMatrix, i: nat, j: nat, w: real): (r: SparseMatrix)
    requires i < j
    ensures Entry(r, i, j) == -w && Entry(r, j, i) == -w
    ensures Entry(r, i, i) == Entry(m, i, i) + w && Entry(r, j, j) == Entry(m, j, j) + w
    ensures forall p: nat, q: nat :: (p, q) != (i, j) && (p, q) != (j, i) && (p, q) != (i, i) && (p, q) != (j, j) ==>
      Entry(r, p, q) == Entry(m, p, q)
  {
    var m1 := SetEntry(m, i, j, -w);
    var m2 := SetEntry(m1, j, i, -w);
    var m3 := AddToMatrix(m2, i, i, w);
    AddToMatrix(m3, j, j, w)
  }

  /** What the first t edges of the ring pass have done to the matrix. */
  ghost predicate RingPassInvariant(m: SparseMatrix, m0: SparseMatrix, centre: nat, ring: seq<Edge>, t: nat,
                                    boundary: map<nat, nat>, internal: map<nat, nat>)
    requires t <= |ring|
  {
    Symmetric(m) &&
    Entry(m, centre, centre) == Entry(m0, centre, centre) + DiagonalGain(ring[..t], boundary, internal, centre) &&
    (Distinct(Destinations(ring)) ==> forall s :: 0 <= s < t ==> EdgeWritten(m, centre, ring[s], boundary, internal))
  }

  /** What the first t edges of the ring pass have done to the entries outside the
      centre's row and column: each other diagonal entry has gained its neighbour
      weight, and only the edges to the reached numbers are off the old matrix. */
  ghost predicate RingPassFrame(m: SparseMatrix, m0: SparseMatrix, centre: nat, ring: seq<Edge>, t: nat,
                                boundary: map<nat, nat>, internal: map<nat, nat>)
    requires t <= |ring|
  {
    (forall p: nat :: p != centre ==>
       Entry(m, p, p) == Entry(m0, p, p) + NeighbourGain(ring[..t], boundary, internal, centre, p)) &&
    OnlyReachedChanged(m, m0, centre, Reached(ring[..t], boundary, internal, centre))
  }

  /** A boundary edge leaves the other diagonal entries and the off-diagonal ones. */
  lemma BoundaryEdgeFrame(m0: SparseMatrix, m: SparseMatrix, centre: nat, ring: seq<Edge>, t: nat,
                          boundary: map<nat, nat>, internal: map<nat, nat>)
    requires t < |ring| && ring[t].destination in boundary
    requires RingPassFrame(m, m0, centre, ring, t, boundary, internal)
    ensures RingPassFrame(AddToMatrix(m, centre, centre, ring[t].weight), m0, centre, ring, t + 1, boundary, internal)
  {
    assert ring[..t + 1][..t] == ring[..t];
  }

  /** An edge to the interior point numbered j above the centre adds its weight to
      j's diagonal entry, and j becomes reached. */
  lemma InteriorEdgeFrame(m0: SparseMatrix, m: SparseMatrix, centre: nat, ring: seq<Edge>, t: nat,
                          boundary: map<nat, nat>, internal: map<nat, nat>)
    requires t < |ring| && ring[t].destination !in boundary && ring[t].destination in internal
    requires centre < internal[ring[t].destination]
    requires RingPassFrame(m, m0, centre, ring, t, boundary, internal)
    ensures RingPassFrame(ConnectInterior(m, centre, internal[ring[t].destination], ring[t].weight),
                          m0, centre, ring, t + 1, boundary, internal)
  {
    assert ring[..t + 1][..t] == ring[..t];
    var other := internal[ring[t].destination];
    var r := ConnectInterior(m, centre, other, ring[t].weight);
    assert Reached(ring[..t + 1], boundary, internal, centre) == Reached(ring[..t], boundary, internal, centre) + {other};
    forall p: nat | p != centre
      ensures Entry(r, p, p) == Entry(m0, p, p) + NeighbourGain(ring[..t + 1], boundary, internal, centre, p)
    {
      assert Entry(m, p, p) == Entry(m0, p, p) + NeighbourGain(ring[..t], boundary, internal, centre, p);
    }
  }

  /** An edge to an interior point numbered at or below the centre changes nothing. */
  lemma SkippedEdgeFrame(m0: SparseMatrix, m: SparseMatrix, centre: nat, ring: seq<Edge>, t: nat,
                         boundary: map<nat, nat>, internal: map<nat, nat>)
    requires t < |ring| && ring[t].destination !in boundary && ring[t].destination in internal
    requires internal[ring[t].destination] <= centre
    requires RingPassFrame(m, m0, centre, ring, t, boundary, internal)
    ensures RingPassFrame(m, m0, centre, ring, t + 1, boundary, internal)
  {
    assert ring[..t + 1][..t] == ring[..t];
  }

  /** A boundary edge adds its weight to the centre's diagonal entry. */
  lemma BoundaryEdgeStep(m0: SparseMatrix, m: SparseMatrix, centre: nat, ring: seq<Edge>, t: nat,
                         boundary: map<nat, nat>, internal: map<nat, nat>)
    requires t < |ring| && ring[t].destination in boundary
    requires RingPassInvariant(m, m0, centre, ring, t, boundary, internal)
    ensures RingPassInvariant(AddToMatrix(m, centre, centre, ring[t].weight), m0, centre, ring, t + 1, boundary, internal)
  {
    assert ring[..t + 1][..t] == ring[..t];
    var r := AddToMatrix(m, centre, centre, ring[t].weight);
    forall i: nat, j: nat
      ensures Entry(r, i, j) == Entry(r, j, i)
    {
      assert Entry(m, i, j) == Entry(m, j, i);
    }
    if Distinct(Destinations(ring)) {
      forall s | 0 <= s < t + 1
        ensures EdgeWritten(r, centre, ring[s], boundary, internal)
      {
        if s < t {
          assert EdgeWritten(m, centre, ring[s], boundary, internal);
        }
      }
    }
  }

  /** An edge to an interior point numbered above the centre is connected. */
  lemma InteriorEdgeStep(m0: SparseMatrix, m: SparseMatrix, centre: nat, ring: seq<Edge>, t: nat,
                         boundary: map<nat, nat>, internal: map<nat, nat>)
    requires t < |ring| && ring[t].destination !in boundary && ring[t].destination in internal
    requires centre < internal[ring[t].destination] && Injective(internal)
    requires RingPassInvariant(m, m0, centre, ring, t, boundary, internal)
    ensures RingPassInvariant(ConnectInterior(m, centre, internal[ring[t].destination], ring[t].weight),
                              m0, centre, ring, t + 1, boundary, internal)
  {
    assert ring[..t + 1][..t] == ring[..t];
    var other := internal[ring[t].destination];
    var r := ConnectInterior(m, centre, other, ring[t].weight);
    forall i: nat, j: nat
      ensures Entry(r, i, j) == Entry(r, j, i)
    {
      assert Entry(m, i, j) == Entry(m, j, i);
    }
    if Distinct(Destinations(ring)) {
      forall s | 0 <= s < t
        ensures EdgeWritten(r, centre, ring[s], boundary, internal)
      {
        assert Destinations(ring)[s] != Destinations(ring)[t];
        assert EdgeWritten(m, centre, ring[s], boundary, internal);
      }
    }
  }

  /** An edge to an interior point numbered at or below the centre changes nothing. */
  lemma SkippedEdgeStep(m0: SparseMatrix, m: SparseMatrix, centre: nat, ring: seq<Edge>, t: nat,
                        boundary: map<nat, nat>, internal: map<nat, nat>)
    requires t < |ring| && ring[t].destination !in boundary && ring[t].destination in internal
    requires internal[ring[t].destination] <= centre
    requires RingPassInvariant(m, m0, centre, ring, t, boundary, internal)
    ensures RingPassInvariant(m, m0, centre, ring, t + 1, boundary, internal)
  {
    assert ring[..t + 1][..t] == ring[..t];
  }

  lemma MomentStep(ring: seq<Edge>, t: nat, boundary: map<nat, nat>, points: map<nat, Point3>, axis: nat)
    requires t < |ring|
    ensures BoundaryMoment(ring[..t + 1], boundary, points, axis) ==
      BoundaryMoment(ring[..t], boundary, points, axis) +
      (if ring[t].destination in boundary && ring[t].destination in points
       then Coordinate(points[ring[t].destination], axis) * ring[t].weight else 0.0)
  {
    assert ring[..t + 1][..t] == ring[..t];
  }

  /** Whichever kind edge t is, the update the ring pass makes for it keeps both
      ring-pass invariants. */
  lemma EdgeStep(m0: SparseMatrix, m: SparseMatrix, m': SparseMatrix, centre: nat, ring: seq<Edge>, t: nat,
                 boundary: map<nat, nat>, internal: map<nat, nat>)
    requires t < |ring| && Injective(internal)
    requires ring[t].destination in boundary || ring[t].destination in internal
    requires ring[t].destination in boundary ==> m' == AddToMatrix(m, centre, centre, ring[t].weight)
    requires ring[t].destination !in boundary && ring[t].destination in internal && centre < internal[ring[t].destination] ==>
      m' == ConnectInterior(m, centre, internal[ring[t].destination], ring[t].weight)
    requires ring[t].destination !in boundary && ring[t].destination in internal && internal[ring[t].destination] <= centre ==>
      m' == m
    requires RingPassInvariant(m, m0, centre, ring, t, boundary, internal)
    requires RingPassFrame(m, m0, centre, ring, t, boundary, internal)
    ensures RingPassInvariant(m', m0, centre, ring, t + 1, boundary, internal)
    ensures RingPassFrame(m', m0, centre, ring, t + 1, boundary, internal)
  {
    if ring[t].destination in boundary {
      BoundaryEdgeStep(m0, m, centre, ring, t, boundary, internal);
      BoundaryEdgeFrame(m0, m, centre, ring, t, boundary, internal);
    } else if centre < internal[ring[t].destination] {
      InteriorEdgeStep(m0, m, centre, ring, t, boundary, internal);
      InteriorEdgeFrame(m0, m, centre, ring, t, boundary, internal);
    } else {
      SkippedEdgeStep(m0, m, centre, ring, t, boundary, internal);
      SkippedEdgeFrame(m0, m, centre, ring, t, boundary, internal);
    }
  }

  /** The body of the ring pass for edge t: a boundary neighbour adds its weight to
      the centre's diagonal entry and its weighted coordinates to the moments; an
      interior neighbour numbered above the centre is connected; one numbered at or
      below it is left to that neighbour's own pass. */
  method AssembleEdge(m0: SparseMatrix, m: SparseMatrix, kx: real, ky: real, centre: nat, ring: seq<Edge>, t: nat,
                      boundary: map<nat, nat>, internal: map<nat, nat>, points: map<nat, Point3>)
    returns (m': SparseMatrix, kx': real, ky': real)
    requires t < |ring| && RingResolved(ring, boundary, internal, points) && Injective(internal)
    requires RingPassInvariant(m, m0, centre, ring, t, boundary, internal)
    requires RingPassFrame(m, m0, centre, ring, t, boundary, internal)
    requires kx == BoundaryMoment(ring[..t], boundary, points, 0) && ky == BoundaryMoment(ring[..t], boundary, points, 1)
    ensures RingPassInvariant(m', m0, centre, ring, t + 1, boundary, internal)
    ensures RingPassFrame(m', m0, centre, ring, t + 1, boundary, internal)
    ensures kx' == BoundaryMoment(ring[..t + 1], boundary, points, 0)
    ensures ky' == BoundaryMoment(ring[..t + 1], boundary, points, 1)
  {
    MomentStep(ring, t, boundary, points, 0);
    MomentStep(ring, t, boundary, points, 1);
    var e := ring[t];
    if e.destination in boundary {
      var pt2 := points[e.destination];
      m' := AddToMatrix(m, centre, centre, e.weight);
      kx' := kx + Coordinate(pt2, 0) * e.weight;
      ky' := ky + Coordinate(pt2, 1) * e.weight;
    } else {
      var other := internal[e.destination];
      kx', ky' := kx, ky;
      if centre < other {
        m' := ConnectInterior(m, centre, other, e.weight);
      } else {
        m' := m;
      }
    }
    EdgeStep(m0, m, m', centre, ring, t, boundary, internal);
  }

  /** One pass of the edge ring around the interior point numbered centre: keeps
      the matrix symmetric, yields the boundary moments for the right-hand sides,
      adds the diagonal gain to the centre's diagonal entry and to every other
      diagonal entry its neighbour weight, writes every interior edge to a point
      numbered above the centre, and touches no other off-diagonal entry. */
  method AssembleRing(m0: SparseMatrix, centre: nat, ring: seq<Edge>, boundary: map<nat, nat>,
                      internal: map<nat, nat>, points: map<nat, Point3>)
    returns (m: SparseMatrix, kx: real, ky: real)
    requires RingResolved(ring, boundary, internal, points) && Injective(internal)
    requires Symmetric(m0)
    ensures Symmetric(m)
    ensures kx == BoundaryMoment(ring, boundary, points, 0) && ky == BoundaryMoment(ring, boundary, points, 1)
    ensures Entry(m, centre, centre) == Entry(m0, centre, centre) + DiagonalGain(ring, boundary, internal, centre)
    ensures forall p: nat :: p != centre ==>
      Entry(m, p, p) == Entry(m0, p, p) + NeighbourGain(ring, boundary, internal, centre, p)
    ensures RingWritten(m, centre, ring, boundary, internal)
    ensures OffDiagonalKept(m, m0, centre)
    ensures OnlyReachedChanged(m, m0, centre, Reached(ring, boundary, internal, centre))
  {
    m, kx, ky := m0, 0.0, 0.0;
    var t := 0;
    while t < |ring|
      invariant 0 <= t <= |ring|
      invariant kx == BoundaryMoment(ring[..t], boundary, points, 0) && ky == BoundaryMoment(ring[..t], boundary, points, 1)
      invariant RingPassInvariant(m, m0, centre, ring, t, boundary, internal)
      invariant RingPassFrame(m, m0, centre, ring, t, boundary, internal)
    {
      m, kx, ky := AssembleEdge(m0, m, kx, ky, centre, ring, t, boundary, internal, points);
      t := t + 1;
    }
    assert ring[..t] == ring;
  }

  /** The right-hand side entry is a sum over boundary neighbours only: a ring without
      boundary neighbours contributes zero. */
  lemma {:induction false} InteriorRingHasZeroMoment(ring: seq<Edge>, boundary: map<nat, nat>, points: map<nat, Point3>, axis: nat)
    requires forall t :: 0 <= t < |ring| ==> ring[t].destination !in boundary
    ensures BoundaryMoment(ring, boundary, points, axis) == 0.0
  {
    if ring != [] {
      InteriorRingHasZeroMoment(ring[..|ring| - 1], boundary, points, axis);
    }
  }

  /** Once the interior is numbered from a closed point set whose points and
      boundary points all have output positions, every interior ring is resolved
      and the numbers are distinct indices below the interior count. */
  lemma InteriorSystemReady(ids: seq<nat>, ring: nat -> seq<Edge>, boundary: map<nat, nat>, points: map<nat, Point3>)
    requires Distinct(ids)
    requires forall id :: id in ids ==> id in points
    requires boundary.Keys <= points.Keys
    requires forall id, t :: id in ids && 0 <= t < |ring(id)| ==> ring(id)[t].destination in ids
    ensures var n := Numbering(ids, boundary.Keys);
      Injective(n) && n.Keys <= points.Keys && n.Keys !! boundary.Keys &&
      (forall id :: id in n ==> n[id] < |n|) &&
      (forall id :: id in n ==> RingResolved(ring(id), boundary, n, points))
  {
    NumberingIsConsecutive(ids, boundary.Keys);
    NumberingInjective(ids, boundary.Keys);
    NumberingSize(ids, boundary.Keys);
  }

  /** The linear system the filter hands to the solver: a symmetric matrix whose
      entries between two interior points that no ring links are zero, whose ring
      edges are written, and right-hand sides holding each interior point's
      boundary moments. */
  ghost predicate AssembledSystem(m: SparseMatrix, rhsX: seq<real>, rhsY: seq<real>, ring: nat -> seq<Edge>,
                                  boundary: map<nat, nat>, internal: map<nat, nat>, points: map<nat, Point3>) {
    Symmetric(m) && |rhsX| == |internal| && |rhsY| == |internal| &&
    (forall id :: id in internal ==>
       internal[id] < |internal| &&
       rhsX[internal[id]] == BoundaryMoment(ring(id), boundary, points, 0) &&
       rhsY[internal[id]] == BoundaryMoment(ring(id), boundary, points, 1) &&
       RingWritten(m, internal[id], ring(id), boundary, internal)) &&
    (forall p: nat, q: nat :: p < q && !Linked(ring, boundary, internal, internal.Keys, p, q) ==>
       Entry(m, p, q) == 0.0 && Entry(m, q, p) == 0.0)
  }

  /** Every interior point numbered i sits at (X[i], Y[i], 0) of the solution. */
  ghost predicate PlacedBySolution(points: map<nat, Point3>, internal: map<nat, nat>, solution: (seq<real>, seq<real>)) {
    forall id :: id in internal ==>
      id in points && internal[id] < |solution.0| && internal[id] < |solution.1| &&
      points[id] == Point3(solution.0[internal[id]], solution.1[internal[id]], 0.0)
  }

  /** The moments read only the positions of boundary points. */
  lemma {:induction false} BoundaryMomentFrame(ring: seq<Edge>, boundary: map<nat, nat>, points: map<nat, Point3>,
                                               points': map<nat, Point3>, axis: nat)
    requires forall k :: k in boundary ==> (k in points <==> k in points') && (k in points ==> points'[k] == points[k])
    ensures BoundaryMoment(ring, boundary, points', axis) == BoundaryMoment(ring, boundary, points, axis)
  {
    if ring != [] {
      BoundaryMomentFrame(ring[..|ring| - 1], boundary, points, points', axis);
    }
  }

  /** Moving interior points does not change the system: it stays the one
      assembled from the boundary positions. */
  lemma SystemKeptByInteriorMoves(m: SparseMatrix, rhsX: seq<real>, rhsY: seq<real>, ring: nat -> seq<Edge>,
                                  boundary: map<nat, nat>, internal: map<nat, nat>,
                                  points: map<nat, Point3>, points': map<nat, Point3>)
    requires AssembledSystem(m, rhsX, rhsY, ring, boundary, internal, points)
    requires forall k :: k in boundary ==> (k in points <==> k in points') && (k in points ==> points'[k] == points[k])
    ensures AssembledSystem(m, rhsX, rhsY, ring, boundary, internal, points')
  {
    forall id | id in internal
      ensures BoundaryMoment(ring(id), boundary, points', 0) == BoundaryMoment(ring(id), boundary, points, 0)
      ensures BoundaryMoment(ring(id), boundary, points', 1) == BoundaryMoment(ring(id), boundary, points, 1)
    {
      BoundaryMomentFrame(ring(id), boundary, points, points', 0);
      BoundaryMomentFrame(ring(id), boundary, points, points', 1);
    }
  }

  // ---------------------------------------------------------------------------
  // The filter

  class MeshParam {
    /** Boundary point id to its index in the border. */
    var boundaryPtMap: map<nat, nat>
    /** Positions of the border points. */
    var border: seq<Point3>
    /** Interior point id to its number. */
    var internalPtMap: map<nat, nat>
    /** Point positions of the output mesh. */
    var outputPoints: map<nat, Point3>

    constructor ()
      ensures boundaryPtMap == map[] && border == [] && internalPtMap == map[] && outputPoints == map[]
    {
      boundaryPtMap := map[];
      border := [];
      internalPtMap := map[];
      outputPoints := map[];
    }

    /** CopyToOutputBorder: every boundary point is moved to its border position;
        every other output point keeps its position. */
    method CopyToOutputBorder()
      requires forall id :: id in boundaryPtMap ==> boundaryPtMap[id] < |border|
      modifies this`outputPoints
      ensures outputPoints.Keys == old(outputPoints).Keys + boundaryPtMap.Keys
      ensures forall id :: id in boundaryPtMap ==> outputPoints[id] == border[boundaryPtMap[id]]
      ensures forall id :: id in old(outputPoints) && id !in boundaryPtMap ==> outputPoints[id] == old(outputPoints)[id]
    {
      var remaining := boundaryPtMap.Keys;
      while remaining != {}
        invariant remaining <= boundaryPtMap.Keys
        invariant outputPoints.Keys == old(outputPoints).Keys + (boundaryPtMap.Keys - remaining)
        invariant forall id :: id in boundaryPtMap && id !in remaining ==> outputPoints[id] == border[boundaryPtMap[id]]
        invariant forall id :: id in old(outputPoints) && id !in boundaryPtMap ==> outputPoints[id] == old(outputPoints)[id]
        decreases remaining
      {
        var id :| id in remaining;
        outputPoints := outputPoints[id := border[boundaryPtMap[id]]];
        remaining := remaining - {id};
      }
    }

    /** ComputeListOfInteriorVertices: walks the point container and numbers, with a
        running counter from 0, every id that is not a boundary point; entries already
        in the map for other ids stay. */
    method ComputeListOfInteriorVertices(pointIds: seq<nat>)
      modifies this`internalPtMap
      ensures internalPtMap == old(internalPtMap) + Numbering(pointIds, boundaryPtMap.Keys)
    {
      var k := 0;
      var i := 0;
      while i < |pointIds|
        invariant 0 <= i <= |pointIds|
        invariant internalPtMap == old(internalPtMap) + Numbering(pointIds[..i], boundaryPtMap.Keys)
        invariant k == InteriorCount(pointIds[..i], boundaryPtMap.Keys)
      {
        assert pointIds[..i + 1][..i] == pointIds[..i];
        var id := pointIds[i];
        if id !in boundaryPtMap {
          internalPtMap := internalPtMap[id := k];
          k := k + 1;
        }
        i := i + 1;
      }
      assert pointIds[..i] == pointIds;
    }

    /** FillMatrix: runs the ring pass of every interior point, in any order. The
        matrix stays symmetric; each interior point's right-hand-side entries are
        its boundary moments; every interior-interior edge, taken from its
        lower-numbered end, leaves -w at both (i, j) and (j, i). */
    method FillMatrix(ring: nat -> seq<Edge>, m0: SparseMatrix, rhsX0: seq<real>, rhsY0: seq<real>)
      returns (m: SparseMatrix, rhsX: seq<real>, rhsY: seq<real>)
      requires Injective(internalPtMap)
      requires forall id :: id in internalPtMap ==> internalPtMap[id] < |rhsX0| && internalPtMap[id] < |rhsY0|
      requires forall id :: id in internalPtMap ==> RingResolved(ring(id), boundaryPtMap, internalPtMap, outputPoints)
      requires Symmetric(m0)
      ensures Symmetric(m)
      ensures |rhsX| == |rhsX0| && |rhsY| == |rhsY0|
      ensures forall id :: id in internalPtMap ==> RightHandSides(rhsX, rhsY, id, ring(id))
      ensures forall id :: id in internalPtMap ==> RingWritten(m, internalPtMap[id], ring(id), boundaryPtMap, internalPtMap)
      ensures forall p: nat, q: nat :: p < q && !Linked(ring, boundaryPtMap, internalPtMap, internalPtMap.Keys, p, q) ==>
        Entry(m, p, q) == Entry(m0, p, q) && Entry(m, q, p) == Entry(m0, q, p)
    {
      m, rhsX, rhsY := m0, rhsX0, rhsY0;
      var remaining := internalPtMap.Keys;
      while remaining != {}
        invariant remaining <= internalPtMap.Keys
        invariant Symmetric(m)
        invariant |rhsX| == |rhsX0| && |rhsY| == |rhsY0|
        invariant forall id :: id in internalPtMap && id !in remaining ==> RightHandSides(rhsX, rhsY, id, ring(id))
        invariant forall id :: id in internalPtMap && id !in remaining ==>
          RingWritten(m, internalPtMap[id], ring(id), boundaryPtMap, internalPtMap)
        invariant forall p: nat, q: nat :: p < q && !Linked(ring, boundaryPtMap, internalPtMap, internalPtMap.Keys - remaining, p, q) ==>
          Entry(m, p, q) == Entry(m0, p, q)
        decreases remaining
      {
        var id1 :| id1 in remaining;
        var centre := internalPtMap[id1];
        ghost var before, beforeX, beforeY := m, rhsX, rhsY;
        var kx, ky;
        m, kx, ky := AssembleRing(m, centre, ring(id1), boundaryPtMap, internalPtMap, outputPoints);
        rhsX := rhsX[centre := kx];
        rhsY := rhsY[centre := ky];
        forall id | id in internalPtMap && id !in remaining
          ensures RightHandSides(rhsX, rhsY, id, ring(id))
          ensures RingWritten(m, internalPtMap[id], ring(id), boundaryPtMap, internalPtMap)
        {
          assert internalPtMap[id] != centre;
          assert RightHandSides(beforeX, beforeY, id, ring(id));
          RingWrittenKept(before, m, internalPtMap[id], ring(id), centre, boundaryPtMap, internalPtMap);
        }
        assert internalPtMap.Keys - (remaining - {id1}) == (internalPtMap.Keys - remaining) + {id1};
        UnlinkedEntriesKept(m0, before, m, ring, boundaryPtMap, internalPtMap, internalPtMap.Keys - remaining, id1);
        remaining := remaining - {id1};
      }
      forall p: nat, q: nat | p < q && !Linked(ring, boundaryPtMap, internalPtMap, internalPtMap.Keys, p, q)
        ensures Entry(m, q, p) == Entry(m0, q, p)
      {
        assert Entry(m, p, q) == Entry(m0, p, q);
      }
    }

    /** The right-hand-side entries of interior point id are the boundary moments of
        its ring. */
    ghost predicate RightHandSides(rhsX: seq<real>, rhsY: seq<real>, id: nat, idRing: seq<Edge>)
      reads this
    {
      id in internalPtMap && internalPtMap[id] < |rhsX| && internalPtMap[id] < |rhsY| &&
      rhsX[internalPtMap[id]] == BoundaryMoment(idRing, boundaryPtMap, outputPoints, 0) &&
      rhsY[internalPtMap[id]] == BoundaryMoment(idRing, boundaryPtMap, outputPoints, 1)
    }

    /** The write-back after the solve: every interior point moves to
        (X[i], Y[i], 0) with i its number; every other output point keeps its
        position. */
    method WriteBack(x: seq<real>, y: seq<real>)
      requires forall id :: id in internalPtMap ==> internalPtMap[id] < |x| && internalPtMap[id] < |y|
      modifies this`outputPoints
      ensures outputPoints.Keys == old(outputPoints).Keys + internalPtMap.Keys
      ensures forall id :: id in internalPtMap ==>
        outputPoints[id] == Point3(x[internalPtMap[id]], y[internalPtMap[id]], 0.0)
      ensures forall id :: id in old(outputPoints) && id !in internalPtMap ==> outputPoints[id] == old(outputPoints)[id]
    {
      var remaining := internalPtMap.Keys;
      while remaining != {}
        invariant remaining <= internalPtMap.Keys
        invariant outputPoints.Keys == old(outputPoints).Keys + (internalPtMap.Keys - remaining)
        invariant forall id :: id in internalPtMap && id !in remaining ==>
          outputPoints[id] == Point3(x[internalPtMap[id]], y[internalPtMap[id]], 0.0)
        invariant forall id :: id in old(outputPoints) && id !in internalPtMap ==> outputPoints[id] == old(outputPoints)[id]
        decreases remaining
      {
        var id :| id in remaining;
        var internalId := internalPtMap[id];
        outputPoints := outputPoints[id := Point3(x[internalId], y[internalId], 0.0)];
        remaining := remaining - {id};
      }
    }

    /** GenerateData: copies the input points to the output, takes border and
        boundary map from the border transform when there is one, fails unless both
        have more than two elements, then places the border and parameterises the
        interior. */
    method GenerateData(inputPoints: map<nat, Point3>, pointIds: seq<nat>,
                        borderTransform: Option<(seq<Point3>, map<nat, nat>)>,
                        ring: nat -> seq<Edge>,
                        solve: (SparseMatrix, seq<real>, seq<real>) -> (seq<real>, seq<real>))
      returns (outcome: Outcome<Error>, ghost m: SparseMatrix, ghost rhsX: seq<real>, ghost rhsY: seq<real>)
      requires Distinct(pointIds) && internalPtMap == map[]
      requires forall id :: id in pointIds <==> id in inputPoints
      requires forall id, t :: id in pointIds && 0 <= t < |ring(id)| ==> ring(id)[t].destination in pointIds
      requires var b := if borderTransform.Some? then borderTransform.value.0 else border;
               var bm := if borderTransform.Some? then borderTransform.value.1 else boundaryPtMap;
               forall id :: id in bm ==> bm[id] < |b|
      requires forall m, u, v :: |solve(m, u, v).0| == |u| && |solve(m, u, v).1| == |v|
      modifies this`border, this`boundaryPtMap, this`internalPtMap, this`outputPoints
      ensures borderTransform.Some? ==> border == borderTransform.value.0 && boundaryPtMap == borderTransform.value.1
      ensures borderTransform.None? ==> border == old(border) && boundaryPtMap == old(boundaryPtMap)
      ensures outcome.Fail? <==> !(|boundaryPtMap| > 2 && |border| > 2)
      ensures outcome.Fail? ==> outcome.error == BorderTooSmall && outputPoints == inputPoints && internalPtMap == map[]
      ensures outcome.Pass? ==>
        outputPoints.Keys == inputPoints.Keys + boundaryPtMap.Keys &&
        internalPtMap == Numbering(pointIds, boundaryPtMap.Keys) &&
        (forall id :: id in boundaryPtMap ==> outputPoints[id] == border[boundaryPtMap[id]])
      ensures outcome.Pass? ==>
        AssembledSystem(m, rhsX, rhsY, ring, boundaryPtMap, internalPtMap, outputPoints) &&
        PlacedBySolution(outputPoints, internalPtMap, solve(m, rhsX, rhsY))
    {
      m, rhsX, rhsY := map[], [], [];
      outputPoints := inputPoints;
      if borderTransform.Some? {
        border := borderTransform.value.0;
        boundaryPtMap := borderTransform.value.1;
      }
      if !(|boundaryPtMap| > 2 && |border| > 2) {
        outcome := Fail(BorderTooSmall);
        return;
      }
      m, rhsX, rhsY := FlattenWithBorder(pointIds, ring, solve);
      outcome := Pass;
    }

    /** The part of GenerateData after the border check: places the border, then
        parameterises the interior. */
    method FlattenWithBorder(pointIds: seq<nat>, ring: nat -> seq<Edge>,
                             solve: (SparseMatrix, seq<real>, seq<real>) -> (seq<real>, seq<real>))
      returns (ghost m: SparseMatrix, ghost rhsX: seq<real>, ghost rhsY: seq<real>)
      requires Distinct(pointIds) && internalPtMap == map[]
      requires forall id :: id in pointIds ==> id in outputPoints
      requires forall id :: id in boundaryPtMap ==> boundaryPtMap[id] < |border|
      requires forall id, t :: id in pointIds && 0 <= t < |ring(id)| ==> ring(id)[t].destination in pointIds
      requires forall m, u, v :: |solve(m, u, v).0| == |u| && |solve(m, u, v).1| == |v|
      modifies this`internalPtMap, this`outputPoints
      ensures outputPoints.Keys == old(outputPoints).Keys + boundaryPtMap.Keys
      ensures internalPtMap == Numbering(pointIds, boundaryPtMap.Keys)
      ensures forall id :: id in boundaryPtMap ==> outputPoints[id] == border[boundaryPtMap[id]]
      ensures AssembledSystem(m, rhsX, rhsY, ring, boundaryPtMap, internalPtMap, outputPoints)
      ensures PlacedBySolution(outputPoints, internalPtMap, solve(m, rhsX, rhsY))
    {
      CopyToOutputBorder();
      var x, y;
      x, y, m, rhsX, rhsY := ParameteriseInterior(pointIds, ring, solve);
    }

    /** The part of GenerateData after the border is placed: numbers the interior,
        assembles and solves the two systems and writes the interior points back.
        Boundary points keep their border positions. */
    method ParameteriseInterior(pointIds: seq<nat>, ring: nat -> seq<Edge>,
                                solve: (SparseMatrix, seq<real>, seq<real>) -> (seq<real>, seq<real>))
      returns (x: seq<real>, y: seq<real>, ghost m: SparseMatrix, ghost rhsX: seq<real>, ghost rhsY: seq<real>)
      requires Distinct(pointIds) && internalPtMap == map[]
      requires forall id :: id in pointIds ==> id in outputPoints
      requires boundaryPtMap.Keys <= outputPoints.Keys
      requires forall id, t :: id in pointIds && 0 <= t < |ring(id)| ==> ring(id)[t].destination in pointIds
      requires forall m, u, v :: |solve(m, u, v).0| == |u| && |solve(m, u, v).1| == |v|
      modifies this`internalPtMap, this`outputPoints
      ensures internalPtMap == Numbering(pointIds, boundaryPtMap.Keys)
      ensures internalPtMap.Keys !! boundaryPtMap.Keys
      ensures |x| == |internalPtMap| && |y| == |internalPtMap|
      ensures forall id :: id in internalPtMap ==> internalPtMap[id] < |internalPtMap|
      ensures outputPoints.Keys == old(outputPoints).Keys
      ensures forall id :: id in internalPtMap ==>
        id in outputPoints && outputPoints[id] == Point3(x[internalPtMap[id]], y[internalPtMap[id]], 0.0)
      ensures forall id :: id in old(outputPoints) && id !in internalPtMap ==> outputPoints[id] == old(outputPoints)[id]
      ensures AssembledSystem(m, rhsX, rhsY, ring, boundaryPtMap, internalPtMap, outputPoints)
      ensures (x, y) == solve(m, rhsX, rhsY)
    {
      ComputeListOfInteriorVertices(pointIds);
      assert internalPtMap == Numbering(pointIds, boundaryPtMap.Keys) by {
        assert map[] + Numbering(pointIds, boundaryPtMap.Keys) == Numbering(pointIds, boundaryPtMap.Keys);
      }
      InteriorSystemReady(pointIds, ring, boundaryPtMap, outputPoints);
      m, rhsX, rhsY, x, y := SolveInterior(ring, solve);
      ghost var assembledFrom := outputPoints;
      WriteBack(x, y);
      SystemKeptByInteriorMoves(m, rhsX, rhsY, ring, boundaryPtMap, internalPtMap, assembledFrom, outputPoints);
    }

    /** Assembles the two systems from empty ones and hands them to the solver: the
        system is the assembled one for the current points, and the solution is
        what the solver returns for exactly that system. */
    method SolveInterior(ring: nat -> seq<Edge>,
                         solve: (SparseMatrix, seq<real>, seq<real>) -> (seq<real>, seq<real>))
      returns (m: SparseMatrix, rhsX: seq<real>, rhsY: seq<real>, x: seq<real>, y: seq<real>)
      requires Injective(internalPtMap)
      requires forall id :: id in internalPtMap ==> internalPtMap[id] < |internalPtMap|
      requires forall id :: id in internalPtMap ==> RingResolved(ring(id), boundaryPtMap, internalPtMap, outputPoints)
      requires forall m, u, v :: |solve(m, u, v).0| == |u| && |solve(m, u, v).1| == |v|
      ensures AssembledSystem(m, rhsX, rhsY, ring, boundaryPtMap, internalPtMap, outputPoints)
      ensures (x, y) == solve(m, rhsX, rhsY) && |x| == |internalPtMap| && |y| == |internalPtMap|
    {
      var zeros := seq(|internalPtMap|, _ => 0.0);
      m, rhsX, rhsY := FillMatrix(ring, map[], zeros, zeros);
      x, y := solve(m, rhsX, rhsY).0, solve(m, rhsX, rhsY).1;
      assert forall id :: id in internalPtMap ==> RightHandSides(rhsX, rhsY, id, ring(id));
    }
  }
}
