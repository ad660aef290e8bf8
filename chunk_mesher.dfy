/**
 * The face-culling mesher of src/chunk.rs (`ChunkMesher`).
 *
 * For every Stone voxel, in index order, the mesher builds a six-bit mask
 * whose bit i says that the neighbour in the direction of face i is Air,
 * and emits the quad of face i for each set bit. The emitted faces are
 * specified by `MeshFaces`, the geometry by `QuadsOf`; `MeshChunk` is
 * proved to build exactly `QuadsOf(MeshFaces(voxels))`.
 */
module ChunkMesher {
  import opened Geometry
  import opened Wrappers
  import opened Utils
  import opened MeshData
  import opened Quad
  import opened Chunks

  /** The face numbered `i`, as `QuadFace::from_i64(i).expect(..)` yields it. */
  function FaceAt(i: nat): (f: QuadFace)
    requires i < 6
    ensures FaceIndex(f) == i
  {
    FromI64(i).value
  }

  /** The cell stored at flat index `i` (`index_to_coord` with the chunk size). */
  function CellPos(i: nat): (p: UVec3)
    ensures p.x < 16 && p.y < 16 && p.z <= i
  {
    IndexToCoord(i, CHUNK_SIZE)
  }

  /** Every voxel index decodes to an in-bounds cell whose index it is. */
  lemma CellPosRoundTrip(i: nat)
    requires i < VOXEL_COUNT
    ensures InBounds(CellPos(i), CHUNK_SIZE) && CoordToIndex(CellPos(i), CHUNK_SIZE) == i
  {
    IndexRoundTrip(i, CHUNK_SIZE);
  }

  /** Coordinate `a` moved by `d`, or left at `a` where the move would leave the `u32` range. */
  predicate StepOrStay(a: nat, d: int, r: nat) {
    if 0 <= a + d <= U32_MAX then r == a + d else r == a
  }

  /** The neighbour the mesher inspects: `position.saturating_add_signed(face direction)`. */
  function Neighbour(p: UVec3, f: QuadFace): UVec3
    requires p.x <= U32_MAX && p.y <= U32_MAX && p.z <= U32_MAX
  {
    SaturatingAddSigned(p, Direction(f))
  }

  /**
   * The neighbour is one step along the face's direction, except that at
   * the edge of the `u32` range the cell is its own neighbour.
   */
  lemma NeighbourStepsOrStays(p: UVec3, f: QuadFace)
    requires p.x <= U32_MAX && p.y <= U32_MAX && p.z <= U32_MAX
    ensures StepOrStay(p.x, Direction(f).x, Neighbour(p, f).x)
    ensures StepOrStay(p.y, Direction(f).y, Neighbour(p, f).y)
    ensures StepOrStay(p.z, Direction(f).z, Neighbour(p, f).z)
  {
    var d := Direction(f);
    assert d.x in {-1, 0, 1} && d.y in {-1, 0, 1} && d.z in {-1, 0, 1};
    UnitStep(p.x, d.x);
    UnitStep(p.y, d.y);
    UnitStep(p.z, d.z);
  }

  /** A saturating step of at most one unit either moves by that unit or stays put. */
  lemma UnitStep(a: nat, d: int)
    requires a <= U32_MAX && d in {-1, 0, 1}
    ensures StepOrStay(a, d, SaturatingAdd(a, d))
  {
  }

  /** Bit `k` of a mask, as `(mask >> k) & 1 == 1` reads it. */
  predicate Bit(mask: bv8, k: nat)
    requires k < 8
  {
    (mask >> k) & 1 == 1
  }

  /**
   * `get_neighbouring_voxels`: bit i of the result is set exactly when the
   * (saturating) neighbour in the direction of face i is inside the chunk
   * and holds `voxel`; no bit above the sixth is ever set.
   */
  method GetNeighbouringVoxels(chunk: Chunk, position: UVec3, voxel: Voxel) returns (mask: bv8)
    requires chunk.Valid()
    requires position.x <= U32_MAX && position.y <= U32_MAX && position.z <= U32_MAX
    ensures mask < 64
    ensures forall i :: 0 <= i < 6 ==>
      (Bit(mask, i) <==> Lookup(chunk.voxels, Neighbour(position, FaceAt(i))) == Some(voxel))
  {
    mask := 0;
    for i := 0 to 6
      invariant mask < (1 as bv8) << i
      invariant forall k :: 0 <= k < i ==>
        (Bit(mask, k) <==> Lookup(chunk.voxels, Neighbour(position, FaceAt(k))) == Some(voxel))
    {
      var faceDirection := Direction(FaceAt(i));
      var neighbour := SaturatingAddSigned(position, faceDirection);
      var v := chunk.GetVoxel(neighbour);
      if v == Some(voxel) {
        mask := mask | ((1 as bv8) << i);
      }
    }
  }

  // ---------------------------------------------------------------------
  // Which faces are emitted

  /** One emitted face: the flat index of its voxel and which side. */
  datatype Face = Face(cell: nat, face: QuadFace)

  /** The side `f` of the voxel at flat index `i` borders an Air cell of the chunk. */
  predicate Exposed(voxels: seq<Voxel>, i: nat, f: QuadFace)
    requires i < VOXEL_COUNT
  {
    Lookup(voxels, Neighbour(CellPos(i), f)) == Some(Air)
  }

  /**
   * Exposure as a function of voxel index and side. The face lists below
   * take it as a parameter, so that their properties are proved once for
   * any exposure test and the neighbour arithmetic stays out of those proofs.
   */
  function ExposedIn(voxels: seq<Voxel>): (nat, QuadFace) -> bool {
    (i: nat, f: QuadFace) => i < VOXEL_COUNT && Exposed(voxels, i, f)
  }

  /** The faces of voxel `i` among faces 0 .. j-1 that `exposed` selects, in face order. */
  function CellFaces(exposed: (nat, QuadFace) -> bool, i: nat, j: nat): seq<Face>
    requires j <= 6
  {
    if j == 0 then []
    else
      var f := FaceAt(j - 1);
      CellFaces(exposed, i, j - 1) + if exposed(i, f) then [Face(i, f)] else []
  }

  /** The faces emitted for the first `n` voxels, in emission order. */
  function Faces(voxels: seq<Voxel>, exposed: (nat, QuadFace) -> bool, n: nat): seq<Face>
    requires n <= |voxels|
  {
    if n == 0 then []
    else Faces(voxels, exposed, n - 1) + if voxels[n - 1] == Stone then CellFaces(exposed, n - 1, 6) else []
  }

  /** All faces the mesher emits for a chunk. */
  function MeshFaces(voxels: seq<Voxel>): seq<Face>
    requires |voxels| == VOXEL_COUNT
  {
    Faces(voxels, ExposedIn(voxels), |voxels|)
  }

  // ---------------------------------------------------------------------
  // The geometry built from the faces

  const GRAY: Rgb := Rgb(0.5, 0.5, 0.5)

  /**
   * The options the mesher passes to `as_mesh` for a face: a half size of
   * 0.5 (one unit cube per voxel) around the voxel's cell, numbered from the
   * current vertex count.
   */
  function QuadOptions(fc: Face, baseIndex: nat): QuadFaceOptions {
    QuadFaceOptions(0.5, ToVec3(CellPos(fc.cell)), baseIndex, GRAY)
  }

  /** `r` is half a unit either way. */
  predicate HalfUnit(r: real) {
    r == 0.5 || r == -0.5
  }

  /** The side of the unit cube around `c` that face `f` names holds `v`. */
  predicate OnSide(f: QuadFace, v: Vec3, c: Vec3) {
    match f
    case Top => v.y == c.y + 0.5
    case Bottom => v.y == c.y - 0.5
    case Right => v.x == c.x + 0.5
    case Left => v.x == c.x - 0.5
    case Back => v.z == c.z + 0.5
    case Front => v.z == c.z - 0.5
  }

  /**
   * Every vertex of a meshed face is a corner of the unit cube centred on
   * its voxel's cell, and lies on the side of that cube the face names.
   */
  lemma QuadLiesOnCellCube(fc: Face, baseIndex: nat, k: nat)
    requires k < 4
    ensures var v, c := AsMesh(fc.face, QuadOptions(fc, baseIndex)).vertices[k].position, ToVec3(CellPos(fc.cell));
      HalfUnit(v.x - c.x) && HalfUnit(v.y - c.y) && HalfUnit(v.z - c.z) && OnSide(fc.face, v, c)
  {
    var o := QuadOptions(fc, baseIndex);
    assert o.halfSize == 0.5 && o.basePosition == ToVec3(CellPos(fc.cell));
    HalfSizedQuadOnCube(fc.face, o, k);
  }

  /** A quad of half size 0.5 lies on the unit cube centred on its base position, on its face's side. */
  lemma HalfSizedQuadOnCube(f: QuadFace, o: QuadFaceOptions, k: nat)
    requires k < 4 && o.halfSize == 0.5
    ensures var v, c := AsMesh(f, o).vertices[k].position, o.basePosition;
      HalfUnit(v.x - c.x) && HalfUnit(v.y - c.y) && HalfUnit(v.z - c.z) && OnSide(f, v, c)
  {
    var corner := Corner(FaceCorners(f)[k]);
    assert CornerPositions(f)[k] == corner;
    var v := AsMesh(f, o).vertices[k].position;
    assert v == Place(corner, o);
    CornerIsCubeCorner(FaceCorners(f)[k]);
    HalfStep(corner.x);
    HalfStep(corner.y);
    HalfStep(corner.z);
    assert v.x - o.basePosition.x == corner.x as real * 0.5;
    assert v.y - o.basePosition.y == corner.y as real * 0.5;
    assert v.z - o.basePosition.z == corner.z as real * 0.5;
    QuadSideVersusDirection(f, k);
  }

  /** Half of a unit step is half a unit, with the step's sign. */
  lemma HalfStep(a: int)
    requires a in {-1, 1}
    ensures a as real * 0.5 == if a == 1 then 0.5 else -0.5
  {
  }

  /** Extend a mesh by the quad of one face, numbered from the current vertex count. */
  function AppendQuad(m: Mesh, fc: Face): Mesh {
    var q := AsMesh(fc.face, QuadOptions(fc, |m.vertices|));
    Mesh(m.vertices + q.vertices, m.indices + q.indices)
  }

  /** The mesh made of the quads of `fs`, appended in order onto an empty mesh. */
  function QuadsOf(fs: seq<Face>): Mesh {
    if fs == [] then EMPTY_MESH else AppendQuad(QuadsOf(fs[..|fs| - 1]), fs[|fs| - 1])
  }

  lemma QuadsOfSnoc(fs: seq<Face>, fc: Face)
    ensures QuadsOf(fs + [fc]) == AppendQuad(QuadsOf(fs), fc)
  {
    assert (fs + [fc])[..|fs|] == fs;
  }

  // ---------------------------------------------------------------------
  // Properties of the emitted faces

  /** A cell's face list holds exactly its exposed faces numbered below `j`. */
  lemma {:induction false} CellFacesMembers(exposed: (nat, QuadFace) -> bool, i: nat, j: nat, fc: Face)
    requires j <= 6
    ensures fc in CellFaces(exposed, i, j) <==> fc.cell == i && FaceIndex(fc.face) < j && exposed(i, fc.face)
  {
    if j > 0 {
      CellFacesMembers(exposed, i, j - 1, fc);
      FaceIndexRoundTrip(fc.face);
    }
  }

  /** A cell's faces come in strictly increasing face number, so each at most once. */
  lemma {:induction false} CellFacesOrdered(exposed: (nat, QuadFace) -> bool, i: nat, j: nat)
    requires j <= 6
    ensures |CellFaces(exposed, i, j)| <= j
    ensures forall a, b :: 0 <= a < b < |CellFaces(exposed, i, j)| ==>
      FaceIndex(CellFaces(exposed, i, j)[a].face) < FaceIndex(CellFaces(exposed, i, j)[b].face)
  {
    if j > 0 {
      CellFacesOrdered(exposed, i, j - 1);
      var prev := CellFaces(exposed, i, j - 1);
      forall a | 0 <= a < |prev|
        ensures FaceIndex(prev[a].face) < j - 1
      {
        CellFacesMembers(exposed, i, j - 1, prev[a]);
      }
    }
  }

  /** All six sides: a cell's face list holds exactly its exposed faces. */
  lemma CellFacesAll(exposed: (nat, QuadFace) -> bool, i: nat, fc: Face)
    ensures fc in CellFaces(exposed, i, 6) <==> fc.cell == i && exposed(i, fc.face)
  {
    CellFacesMembers(exposed, i, 6, fc);
    FaceIndexRoundTrip(fc.face);
  }

  /** Every face emitted for the first `n` voxels is an exposed side of a Stone voxel among them. */
  lemma {:induction false} FacesSound(voxels: seq<Voxel>, exposed: (nat, QuadFace) -> bool, n: nat, fc: Face)
    requires n <= |voxels| && fc in Faces(voxels, exposed, n)
    ensures fc.cell < n && voxels[fc.cell] == Stone && exposed(fc.cell, fc.face)
  {
    var prev := Faces(voxels, exposed, n - 1);
    if fc in prev {
      FacesSound(voxels, exposed, n - 1, fc);
    } else {
      assert voxels[n - 1] == Stone && fc in CellFaces(exposed, n - 1, 6);
      CellFacesAll(exposed, n - 1, fc);
    }
  }

  /** Every exposed side of a Stone voxel among the first `n` is emitted. */
  lemma {:induction false} FacesComplete(voxels: seq<Voxel>, exposed: (nat, QuadFace) -> bool, n: nat, fc: Face)
    requires n <= |voxels| && fc.cell < n && voxels[fc.cell] == Stone && exposed(fc.cell, fc.face)
    ensures fc in Faces(voxels, exposed, n)
  {
    if fc.cell < n - 1 {
      FacesComplete(voxels, exposed, n - 1, fc);
    } else {
      CellFacesAll(exposed, n - 1, fc);
    }
  }

  /**
   * The faces emitted for the first `n` voxels are exactly the exposed
   * faces of the Stone voxels among them.
   */
  lemma FacesMembers(voxels: seq<Voxel>, exposed: (nat, QuadFace) -> bool, n: nat, fc: Face)
    requires n <= |voxels|
    ensures fc in Faces(voxels, exposed, n) <==>
      fc.cell < n && voxels[fc.cell] == Stone && exposed(fc.cell, fc.face)
  {
    if fc in Faces(voxels, exposed, n) {
      FacesSound(voxels, exposed, n, fc);
    }
    if fc.cell < n && voxels[fc.cell] == Stone && exposed(fc.cell, fc.face) {
      FacesComplete(voxels, exposed, n, fc);
    }
  }

  /** `a` is emitted before `b`: lower voxel index first, then lower face number. */
  predicate Precedes(a: Face, b: Face) {
    a.cell < b.cell || (a.cell == b.cell && FaceIndex(a.face) < FaceIndex(b.face))
  }

  /** Emission order is voxel index, then face number; no face is emitted twice. */
  lemma {:induction false} FacesOrdered(voxels: seq<Voxel>, exposed: (nat, QuadFace) -> bool, n: nat)
    requires n <= |voxels|
    ensures |Faces(voxels, exposed, n)| <= 6 * n
    ensures forall a, b :: 0 <= a < b < |Faces(voxels, exposed, n)| ==>
      Precedes(Faces(voxels, exposed, n)[a], Faces(voxels, exposed, n)[b])
  {
    if n > 0 {
      FacesOrdered(voxels, exposed, n - 1);
      var prev := Faces(voxels, exposed, n - 1);
      forall a | 0 <= a < |prev|
        ensures prev[a].cell < n - 1
      {
        FacesSound(voxels, exposed, n - 1, prev[a]);
      }
      if voxels[n - 1] == Stone {
        var last := CellFaces(exposed, n - 1, 6);
        CellFacesOrdered(exposed, n - 1, 6);
        forall b | 0 <= b < |last|
          ensures last[b].cell == n - 1
        {
          CellFacesAll(exposed, n - 1, last[b]);
        }
      }
    }
  }

  /**
   * The mesher emits a face exactly when its voxel is Stone and the
   * neighbour on that side is an Air cell of the chunk, in voxel-index
   * then face order, each at most once.
   */
  lemma MeshFacesExactly(voxels: seq<Voxel>, fc: Face)
    requires |voxels| == VOXEL_COUNT
    ensures fc in MeshFaces(voxels) <==>
      fc.cell < VOXEL_COUNT && voxels[fc.cell] == Stone && Exposed(voxels, fc.cell, fc.face)
    ensures forall a, b :: 0 <= a < b < |MeshFaces(voxels)| ==> Precedes(MeshFaces(voxels)[a], MeshFaces(voxels)[b])
  {
    FacesMembers(voxels, ExposedIn(voxels), |voxels|, fc);
    FacesOrdered(voxels, ExposedIn(voxels), |voxels|);
  }

  /** An all-Air chunk emits no face. */
  lemma {:induction false} AllAirEmitsNothing(voxels: seq<Voxel>, exposed: (nat, QuadFace) -> bool, n: nat)
    requires n <= |voxels|
    requires forall i :: 0 <= i < |voxels| ==> voxels[i] == Air
    ensures Faces(voxels, exposed, n) == []
  {
    if n > 0 {
      AllAirEmitsNothing(voxels, exposed, n - 1);
    }
  }

  /** An all-Air chunk yields an empty mesh. */
  lemma AllAirMeshIsEmpty(voxels: seq<Voxel>)
    requires |voxels| == VOXEL_COUNT
    requires forall i :: 0 <= i < |voxels| ==> voxels[i] == Air
    ensures QuadsOf(MeshFaces(voxels)) == EMPTY_MESH
  {
    AllAirEmitsNothing(voxels, ExposedIn(voxels), |voxels|);
  }

  /**
   * No face on the chunk boundary is emitted: the true (unsaturated)
   * neighbour of every emitted face lies inside the chunk. At the low
   * edge saturation makes the voxel its own neighbour, and it is Stone;
   * at the high edge the neighbour is outside and `get_voxel` has nothing.
   */
  lemma BoundaryFacesNeverEmitted(voxels: seq<Voxel>, fc: Face)
    requires |voxels| == VOXEL_COUNT && fc in MeshFaces(voxels)
    ensures var p, d := CellPos(fc.cell), Direction(fc.face);
      0 <= p.x + d.x < 16 && 0 <= p.y + d.y < 16 && 0 <= p.z + d.z < 16
  {
    FacesMembers(voxels, ExposedIn(voxels), |voxels|, fc);
    CellPosRoundTrip(fc.cell);
  }

  // ---------------------------------------------------------------------
  // Properties of the geometry

  /** Slicing inside the left part of a concatenation. */
  lemma SliceOfLeft<T>(a: seq<T>, b: seq<T>, lo: nat, hi: nat)
    requires lo <= hi <= |a|
    ensures (a + b)[lo..hi] == a[lo..hi]
  {
  }

  /** The right part of a concatenation, sliced back out. */
  lemma SliceOfRight<T>(a: seq<T>, b: seq<T>)
    ensures (a + b)[|a|..|a| + |b|] == b
  {
  }

  /** The mesh of `fs` has four vertices and six indices per face, and every index names an existing vertex. */
  lemma {:induction false} QuadsOfWellFormed(fs: seq<Face>)
    ensures |QuadsOf(fs).vertices| == 4 * |fs| && |QuadsOf(fs).indices| == 6 * |fs|
    ensures WellFormed(QuadsOf(fs))
  {
    if fs != [] {
      var init := fs[..|fs| - 1];
      QuadsOfWellFormed(init);
      var m := QuadsOf(init);
      var q := AsMesh(fs[|fs| - 1].face, QuadOptions(fs[|fs| - 1], |m.vertices|));
      var r := QuadsOf(fs);
      assert r.vertices == m.vertices + q.vertices && r.indices == m.indices + q.indices;
      forall k | 0 <= k < |r.indices|
        ensures r.indices[k] < |r.vertices|
      {
        if k >= |m.indices| {
          assert r.indices[k] == q.indices[k - |m.indices|];
        }
      }
    }
  }

  /** Face k's four vertices in the mesh of `fs` are `as_mesh` with base index 4k, at 4k..4k+4. */
  lemma {:induction false} QuadsOfVertexLayout(fs: seq<Face>)
    ensures |QuadsOf(fs).vertices| == 4 * |fs|
    ensures forall k :: 0 <= k < |fs| ==>
      QuadsOf(fs).vertices[4 * k .. 4 * k + 4] == AsMesh(fs[k].face, QuadOptions(fs[k], 4 * k)).vertices
  {
    if fs != [] {
      var n := |fs|;
      var init := fs[..n - 1];
      QuadsOfVertexLayout(init);
      var m := QuadsOf(init).vertices;
      var q := AsMesh(fs[n - 1].face, QuadOptions(fs[n - 1], |m|)).vertices;
      assert QuadsOf(fs).vertices == m + q;
      forall k | 0 <= k < n
        ensures (m + q)[4 * k .. 4 * k + 4] == AsMesh(fs[k].face, QuadOptions(fs[k], 4 * k)).vertices
      {
        if k < n - 1 {
          assert fs[k] == init[k];
          SliceOfLeft(m, q, 4 * k, 4 * k + 4);
        } else {
          SliceOfRight(m, q);
        }
      }
    }
  }

  /** Face k's six indices in the mesh of `fs` are the two triangles over vertices 4k..4k+4, at 6k..6k+6. */
  lemma {:induction false} QuadsOfIndexLayout(fs: seq<Face>)
    ensures |QuadsOf(fs).indices| == 6 * |fs|
    ensures forall k :: 0 <= k < |fs| ==> QuadsOf(fs).indices[6 * k .. 6 * k + 6] == QuadIndices(4 * k)
  {
    if fs != [] {
      var n := |fs|;
      var init := fs[..n - 1];
      QuadsOfIndexLayout(init);
      QuadsOfVertexLayout(init);
      var m := QuadsOf(init).indices;
      var q := QuadIndices(4 * (n - 1));
      assert QuadsOf(fs).indices == m + q;
      forall k | 0 <= k < n
        ensures (m + q)[6 * k .. 6 * k + 6] == QuadIndices(4 * k)
      {
        if k < n - 1 {
          SliceOfLeft(m, q, 6 * k, 6 * k + 6);
        } else {
          SliceOfRight(m, q);
        }
      }
    }
  }

  /**
   * Face k's quad in the mesh of `fs` is `as_mesh` with base index 4k,
   * the vertex count before it, at vertices 4k..4k+4 and indices
   * 6k..6k+6.
   */
  lemma QuadsOfLayout(fs: seq<Face>)
    ensures |QuadsOf(fs).vertices| == 4 * |fs| && |QuadsOf(fs).indices| == 6 * |fs|
    ensures forall k :: 0 <= k < |fs| ==>
      && QuadsOf(fs).vertices[4 * k .. 4 * k + 4] == AsMesh(fs[k].face, QuadOptions(fs[k], 4 * k)).vertices
      && QuadsOf(fs).indices[6 * k .. 6 * k + 6] == QuadIndices(4 * k)
  {
    QuadsOfVertexLayout(fs);
    QuadsOfIndexLayout(fs);
  }

  /**
   * A chunk's mesh is drawable and small: at most 6 quads per voxel, so
   * every vertex count and index stays far below `u32::MAX` and the
   * source's `vertices.len() as u32` never truncates.
   */
  lemma MeshIsWellFormedAndFitsU32(voxels: seq<Voxel>)
    requires |voxels| == VOXEL_COUNT
    ensures WellFormed(QuadsOf(MeshFaces(voxels)))
    ensures |QuadsOf(MeshFaces(voxels)).vertices| <= 4 * 6 * VOXEL_COUNT < U32_MAX
  {
    FacesOrdered(voxels, ExposedIn(voxels), |voxels|);
    QuadsOfWellFormed(MeshFaces(voxels));
  }

  /** One more side of a cell: its face joins the list exactly when it is exposed. */
  lemma CellFacesStep(exposed: (nat, QuadFace) -> bool, i: nat, j: nat, prior: seq<Face>)
    requires j < 6
    ensures prior + CellFaces(exposed, i, j + 1) ==
      (prior + CellFaces(exposed, i, j)) + if exposed(i, FaceAt(j)) then [Face(i, FaceAt(j))] else []
  {
  }

  /**
   * The `Voxel::Stone` arm of `mesh`: append the quad of every face whose
   * bit is set in the voxel's Air-neighbour mask.
   */
  method AppendExposedQuads(chunk: Chunk, index: nat, ghost prior: seq<Face>, vertices: seq<Vertex>, indices: seq<nat>)
    returns (vertices': seq<Vertex>, indices': seq<nat>)
    requires chunk.Valid() && index < VOXEL_COUNT
    requires MeshData.Mesh(vertices, indices) == QuadsOf(prior)
    ensures MeshData.Mesh(vertices', indices') == QuadsOf(prior + CellFaces(ExposedIn(chunk.voxels), index, 6))
  {
    ghost var exposed := ExposedIn(chunk.voxels);
    vertices', indices' := vertices, indices;
    assert prior + CellFaces(exposed, index, 0) == prior;
    var neighbours := GetNeighbouringVoxels(chunk, CellPos(index), Air);
    for i := 0 to 6
      invariant MeshData.Mesh(vertices', indices') == QuadsOf(prior + CellFaces(exposed, index, i))
    {
      ghost var before := prior + CellFaces(exposed, index, i);
      ghost var fc := Face(index, FaceAt(i));
      CellFacesStep(exposed, index, i, prior);
      assert Bit(neighbours, i) == exposed(index, FaceAt(i));
      if Bit(neighbours, i) {
        var position := CellPos(index);
        var quad := AsMesh(FaceAt(i), QuadFaceOptions(0.5, ToVec3(position), |vertices'|, GRAY));
        assert quad == AsMesh(fc.face, QuadOptions(fc, |vertices'|));
        QuadsOfSnoc(before, fc);
        vertices' := vertices' + quad.vertices;
        indices' := indices' + quad.indices;
      } else {
        assert before + [] == before;
      }
    }
  }

  /** One more voxel: its exposed faces follow when it is Stone. */
  lemma FacesStep(voxels: seq<Voxel>, exposed: (nat, QuadFace) -> bool, n: nat)
    requires n < |voxels|
    ensures Faces(voxels, exposed, n + 1) ==
      Faces(voxels, exposed, n) + if voxels[n] == Stone then CellFaces(exposed, n, 6) else []
  {
  }

  /** `ChunkMesher::mesh`: drain the chunk iterator, emitting one quad per set bit of each Stone voxel's mask. */
  method MeshChunk(chunk: Chunk) returns (m: Mesh)
    requires chunk.Valid()
    ensures m == QuadsOf(MeshFaces(chunk.voxels))
  {
    ghost var voxels := chunk.voxels;
    ghost var exposed := ExposedIn(voxels);
    var vertices: seq<Vertex> := [];
    var indices: seq<nat> := [];
    ghost var emitted: seq<Face> := [];
    var it := chunk.Iter();
    while true
      invariant chunk.voxels == voxels
      invariant it.chunk == chunk && it.currentIndex <= |voxels|
      invariant emitted == Faces(voxels, exposed, it.currentIndex)
      invariant MeshData.Mesh(vertices, indices) == QuadsOf(emitted)
      decreases |voxels| - it.currentIndex
    {
      var next := it.Next();
      if next.None? {
        break;
      }
      var voxel, index := next.value.0, next.value.1;
      FacesStep(voxels, exposed, index);
      if voxel == Stone {
        vertices, indices := AppendExposedQuads(chunk, index, emitted, vertices, indices);
        emitted := emitted + CellFaces(exposed, index, 6);
      } else {
        assert emitted + [] == emitted;
      }
    }
    assert emitted == MeshFaces(voxels);
    m := MeshData.Mesh(vertices, indices);
  }
}
