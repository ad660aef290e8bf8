/**
 * Unit-cube faces and the quad each one becomes (src/quad.rs).
 *
 * `QuadFace` has a derived `FromPrimitive`, so face number i (0..5) is the
 * i-th variant; the chunk mesher uses that number as a bit position. Each
 * face has a direction vector (used for neighbour culling) and a table of
 * four cube corners (used for geometry).
 */
module Quad {
  import opened Geometry
  import opened Wrappers
  import opened MeshData

  datatype QuadFace = Front | Back | Top | Bottom | Left | Right

  /** The discriminant of a face: its position in the declaration, one of 0..5. */
  function FaceIndex(f: QuadFace): (n: nat)
    ensures n < 6
  {
    match f
    case Front => 0
    case Back => 1
    case Top => 2
    case Bottom => 3
    case Left => 4
    case Right => 5
  }

  /** The derived `FromPrimitive::from_i64`. */
  function FromI64(i: int): (r: Option<QuadFace>)
    ensures r.Some? <==> 0 <= i < 6
    ensures r.Some? ==> FaceIndex(r.value) == i
  {
    if i == 0 then Some(Front)
    else if i == 1 then Some(Back)
    else if i == 2 then Some(Top)
    else if i == 3 then Some(Bottom)
    else if i == 4 then Some(Left)
    else if i == 5 then Some(Right)
    else None
  }

  /** `from_i64` and the discriminant are inverse: bit i of a face mask means face i. */
  lemma FaceIndexRoundTrip(f: QuadFace)
    ensures FaceIndex(f) < 6
    ensures FromI64(FaceIndex(f)) == Some(f)
  {
  }

  /** `Into<IVec3>`: the neighbour offset the mesher checks for this face. */
  function Direction(f: QuadFace): IVec3 {
    match f
    case Front => IVec3(0, 0, 1)
    case Back => IVec3(0, 0, -1)
    case Top => IVec3(0, 1, 0)
    case Bottom => IVec3(0, -1, 0)
    case Left => IVec3(-1, 0, 0)
    case Right => IVec3(1, 0, 0)
  }

  predicate IsUnitAxis(v: IVec3) {
    || (v.x in {-1, 1} && v.y == 0 && v.z == 0)
    || (v.x == 0 && v.y in {-1, 1} && v.z == 0)
    || (v.x == 0 && v.y == 0 && v.z in {-1, 1})
  }

  function Neg(v: IVec3): IVec3 {
    IVec3(-v.x, -v.y, -v.z)
  }

  /** Six faces, six distinct unit axis vectors; opposite faces point opposite ways. */
  lemma DirectionsAreDistinctUnitAxes(f: QuadFace, g: QuadFace)
    ensures IsUnitAxis(Direction(f))
    ensures f != g ==> Direction(f) != Direction(g)
    ensures Direction(Back) == Neg(Direction(Front))
    ensures Direction(Bottom) == Neg(Direction(Top))
    ensures Direction(Left) == Neg(Direction(Right))
  {
    FromDirectionInverts(f);
    FromDirectionInverts(g);
    match f
    case Front =>
    case Back =>
    case Top =>
    case Bottom =>
    case Left =>
    case Right =>
  }

  lemma FromDirectionInverts(f: QuadFace)
    ensures FromDirection(Direction(f)) == f
  {
  }

  /** The face whose direction is `d`: the inverse of `Direction`, so no two faces share one. */
  function FromDirection(d: IVec3): QuadFace {
    if d.z == 1 then Front
    else if d.z == -1 then Back
    else if d.y == 1 then Top
    else if d.y == -1 then Bottom
    else if d.x == -1 then Left
    else Right
  }

  datatype QuadVertex =
    | FrontTopLeft | FrontTopRight | FrontBottomLeft | FrontBottomRight
    | BackTopLeft | BackTopRight | BackBottomLeft | BackBottomRight

  /** `Into<[f32; 3]>` for a cube corner. */
  function Corner(v: QuadVertex): IVec3 {
    match v
    case FrontTopLeft => IVec3(-1, 1, -1)
    case FrontTopRight => IVec3(1, 1, -1)
    case FrontBottomLeft => IVec3(-1, -1, -1)
    case FrontBottomRight => IVec3(1, -1, -1)
    case BackTopLeft => IVec3(-1, 1, 1)
    case BackTopRight => IVec3(1, 1, 1)
    case BackBottomLeft => IVec3(-1, -1, 1)
    case BackBottomRight => IVec3(1, -1, 1)
  }

  /** Every cube corner has each coordinate -1 or +1, and the Front corners are the ones at z = -1. */
  lemma CornerIsCubeCorner(v: QuadVertex)
    ensures var c := Corner(v); c.x in {-1, 1} && c.y in {-1, 1} && c.z in {-1, 1}
    ensures Corner(v).z == -1 <==> v in {FrontTopLeft, FrontTopRight, FrontBottomLeft, FrontBottomRight}
  {
  }

  /** The corner table of `as_mesh`, in vertex order. */
  function FaceCorners(f: QuadFace): (cs: seq<QuadVertex>)
    ensures |cs| == 4
  {
    match f
    case Front => [FrontTopLeft, FrontTopRight, FrontBottomRight, FrontBottomLeft]
    case Back => [BackTopRight, BackTopLeft, BackBottomLeft, BackBottomRight]
    case Top => [BackTopLeft, BackTopRight, FrontTopRight, FrontTopLeft]
    case Bottom => [BackBottomLeft, BackBottomRight, FrontBottomRight, FrontBottomLeft]
    case Left => [BackTopLeft, FrontTopLeft, FrontBottomLeft, BackBottomLeft]
    case Right => [FrontTopRight, BackTopRight, BackBottomRight, FrontBottomRight]
  }

  function Dot(a: IVec3, b: IVec3): int {
    a.x * b.x + a.y * b.y + a.z * b.z
  }

  /**
   * The side of the unit cube each face's quad lies on, relative to the
   * face's direction: Top, Bottom, Left and Right sit on the side their
   * direction points to, but Front (direction +z) sits at z = -1 and Back
   * (direction -z) at z = +1, the side opposite the neighbour the mesher
   * checks.
   */
  lemma QuadSideVersusDirection(f: QuadFace, k: nat)
    requires k < 4
    ensures f == Top ==> Corner(FaceCorners(f)[k]).y == 1
    ensures f == Bottom ==> Corner(FaceCorners(f)[k]).y == -1
    ensures f == Left ==> Corner(FaceCorners(f)[k]).x == -1
    ensures f == Right ==> Corner(FaceCorners(f)[k]).x == 1
    ensures f == Front ==> Corner(FaceCorners(f)[k]).z == -1
    ensures f == Back ==> Corner(FaceCorners(f)[k]).z == 1
    ensures Dot(Corner(FaceCorners(f)[k]), Direction(f)) == if f in {Front, Back} then -1 else 1
  {
  }

  /** The point of the face's plane with in-plane coordinates (a, b). */
  function OnFace(f: QuadFace, a: int, b: int): IVec3 {
    match f
    case Front => IVec3(a, b, -1)
    case Back => IVec3(a, b, 1)
    case Top => IVec3(a, 1, b)
    case Bottom => IVec3(a, -1, b)
    case Left => IVec3(-1, a, b)
    case Right => IVec3(1, a, b)
  }

  /** The first in-plane coordinate of `c` on face `f`'s plane. */
  function PlaneA(f: QuadFace, c: IVec3): int {
    if f in {Left, Right} then c.y else c.x
  }

  /** The second in-plane coordinate of `c` on face `f`'s plane. */
  function PlaneB(f: QuadFace, c: IVec3): int {
    if f in {Front, Back} then c.y else c.z
  }

  function CornerPositions(f: QuadFace): (ps: seq<IVec3>)
    ensures |ps| == 4
  {
    var cs := FaceCorners(f);
    [Corner(cs[0]), Corner(cs[1]), Corner(cs[2]), Corner(cs[3])]
  }

  /** The four corners of a face are distinct and are exactly the four ±1 points of its plane. */
  lemma FaceCornersCoverPlane(f: QuadFace)
    ensures forall i, j :: 0 <= i < j < 4 ==> CornerPositions(f)[i] != CornerPositions(f)[j]
    ensures forall k :: 0 <= k < 4 ==>
      var c := CornerPositions(f)[k];
      PlaneA(f, c) in {-1, 1} && PlaneB(f, c) in {-1, 1} && c == OnFace(f, PlaneA(f, c), PlaneB(f, c))
    ensures forall a, b :: a in {-1, 1} && b in {-1, 1} ==> OnFace(f, a, b) in CornerPositions(f)
  {
  }

  datatype QuadFaceOptions = QuadFaceOptions(halfSize: real, basePosition: Vec3, baseIndex: nat, color: Rgb)

  /** `QuadFaceOptions::default()`. */
  const DEFAULT_OPTIONS: QuadFaceOptions := QuadFaceOptions(0.5, Vec3(0.0, 0.0, 0.0), 0, Rgb(0.0, 1.0, 1.0))

  /**
   * With the default options a quad is a face of the unit cube centred at
   * the origin: every coordinate of every vertex is -0.5 or 0.5, the
   * indices name vertices 0..3 and the colour is cyan.
   */
  lemma DefaultQuadIsUnitCubeFace(f: QuadFace, k: nat)
    requires k < 4
    ensures var v := AsMesh(f, DEFAULT_OPTIONS).vertices[k];
      && v.position.x in {-0.5, 0.5} && v.position.y in {-0.5, 0.5} && v.position.z in {-0.5, 0.5}
      && v.color == Rgb(0.0, 1.0, 1.0)
    ensures forall j :: 0 <= j < 6 ==> AsMesh(f, DEFAULT_OPTIONS).indices[j] <= 3
  {
    CornerIsCubeCorner(FaceCorners(f)[k]);
  }

  /** Corner scaled by the half size and moved to the base position, componentwise. */
  function Place(c: IVec3, options: QuadFaceOptions): Vec3 {
    Vec3(c.x as real * options.halfSize + options.basePosition.x,
         c.y as real * options.halfSize + options.basePosition.y,
         c.z as real * options.halfSize + options.basePosition.z)
  }

  /** The two triangles of a quad whose first vertex is `b`. */
  function QuadIndices(b: nat): (r: seq<nat>)
    ensures |r| == 6
    ensures forall k :: 0 <= k < 6 ==> b <= r[k] <= b + 3
    ensures forall v :: b <= v <= b + 3 ==> v in r
  {
    [b, b + 1, b + 3, b + 1, b + 2, b + 3]
  }

  /** `QuadFace::as_mesh`: four coloured corner vertices and two triangles over them. */
  function AsMesh(f: QuadFace, options: QuadFaceOptions): (m: Mesh)
    ensures |m.vertices| == 4 && |m.indices| == 6
    ensures m.indices == QuadIndices(options.baseIndex)
    ensures forall k :: 0 <= k < 4 ==> m.vertices[k].color == options.color
    ensures forall k :: 0 <= k < 4 ==> m.vertices[k].position == Place(CornerPositions(f)[k], options)
  {
    var cs := FaceCorners(f);
    var createVertex := (v: QuadVertex) => Vertex(Place(Corner(v), options), options.color);
    Mesh([createVertex(cs[0]), createVertex(cs[1]), createVertex(cs[2]), createVertex(cs[3])],
         QuadIndices(options.baseIndex))
  }

  /** With a nonzero half size, distinct corners are placed at distinct points. */
  lemma PlaceInjective(c: IVec3, d: IVec3, options: QuadFaceOptions)
    requires options.halfSize != 0.0
    ensures Place(c, options) == Place(d, options) ==> c == d
  {
    var h := options.halfSize;
    if Place(c, options) == Place(d, options) {
      assert c.x as real * h == d.x as real * h;
      assert c.y as real * h == d.y as real * h;
      assert c.z as real * h == d.z as real * h;
    }
  }

  /** A quad with a nonzero half size has four distinct vertex positions. */
  lemma AsMeshVerticesDistinct(f: QuadFace, options: QuadFaceOptions, i: nat, j: nat)
    requires options.halfSize != 0.0
    requires i < j < 4
    ensures AsMesh(f, options).vertices[i].position != AsMesh(f, options).vertices[j].position
  {
    FaceCornersCoverPlane(f);
    PlaceInjective(CornerPositions(f)[i], CornerPositions(f)[j], options);
  }
}
