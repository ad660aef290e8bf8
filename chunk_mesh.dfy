/**
 * The face-based mesh builder of src/chunk/mesh.rs: an axis plus a
 * direction names one of the six sides of a box; `Mesh` grows its vertex
 * and index vectors in place, four vertices and two triangles per face.
 */
module ChunkMesh {
  import opened Geometry

  datatype Axis = X | Y | Z
  datatype Direction = Positive | Negative

  /** RGBA colour of a vertex. */
  datatype Rgba = Rgba(r: real, g: real, b: real, a: real)

  datatype Vertex = Vertex(position: Vec3, normal: Vec3, color: Rgba)

  /** The coordinate of `v` along `axis`. */
  function Component(v: Vec3, axis: Axis): real {
    match axis
    case X => v.x
    case Y => v.y
    case Z => v.z
  }

  function Sign(direction: Direction): real {
    if direction == Positive then 1.0 else -1.0
  }

  /** `Axis::get_normal`: the unit vector along the axis, pointing the given way. */
  function GetNormal(axis: Axis, direction: Direction): (n: Vec3)
    ensures Component(n, axis) == Sign(direction)
    ensures forall other :: other != axis ==> Component(n, other) == 0.0
  {
    match axis
    case X => (match direction case Positive => Vec3(1.0, 0.0, 0.0) case Negative => Vec3(-1.0, 0.0, 0.0))
    case Y => (match direction case Positive => Vec3(0.0, 1.0, 0.0) case Negative => Vec3(0.0, -1.0, 0.0))
    case Z => (match direction case Positive => Vec3(0.0, 0.0, 1.0) case Negative => Vec3(0.0, 0.0, -1.0))
  }

  /** The two triangles `add_quad` appends for a quad whose first vertex is `s`. */
  function FanIndices(s: nat): (r: seq<nat>)
    ensures |r| == 6
    ensures forall k :: 0 <= k < 6 ==> s <= r[k] < s + 4
    ensures r[..3] == [s, s + 1, s + 2] && r[3..] == [s, s + 2, s + 3]
  {
    [s, s + 1, s + 2, s, s + 2, s + 3]
  }

  /** The four vertices `add_quad` appends: the given corners, sharing one normal and one colour. */
  function QuadVertices(corners: seq<Vec3>, normal: Vec3, color: Rgba): (vs: seq<Vertex>)
    requires |corners| == 4
    ensures |vs| == 4
    ensures forall k :: 0 <= k < 4 ==> vs[k] == Vertex(corners[k], normal, color)
  {
    [Vertex(corners[0], normal, color), Vertex(corners[1], normal, color),
     Vertex(corners[2], normal, color), Vertex(corners[3], normal, color)]
  }

  /** The corner table of `add_face`, in vertex order. */
  function FaceCorners(p: Vec3, size: Vec2, axis: Axis, direction: Direction): (cs: seq<Vec3>)
    ensures |cs| == 4
  {
    match (axis, direction)
    case (X, Positive) =>
      [Vec3(p.x, p.y, p.z + size.y), Vec3(p.x, p.y + size.x, p.z + size.y),
       Vec3(p.x, p.y + size.x, p.z), Vec3(p.x, p.y, p.z)]
    case (X, Negative) =>
      [Vec3(p.x, p.y, p.z), Vec3(p.x, p.y + size.x, p.z),
       Vec3(p.x, p.y + size.x, p.z + size.y), Vec3(p.x, p.y, p.z + size.y)]
    case (Y, Positive) =>
      [Vec3(p.x, p.y, p.z), Vec3(p.x + size.x, p.y, p.z),
       Vec3(p.x + size.x, p.y, p.z + size.y), Vec3(p.x, p.y, p.z + size.y)]
    case (Y, Negative) =>
      [Vec3(p.x, p.y, p.z), Vec3(p.x, p.y, p.z + size.y),
       Vec3(p.x + size.x, p.y, p.z + size.y), Vec3(p.x + size.x, p.y, p.z)]
    case (Z, Positive) =>
      [Vec3(p.x, p.y, p.z), Vec3(p.x, p.y + size.y, p.z),
       Vec3(p.x + size.x, p.y + size.y, p.z), Vec3(p.x + size.x, p.y, p.z)]
    case (Z, Negative) =>
      [Vec3(p.x, p.y, p.z), Vec3(p.x + size.x, p.y, p.z),
       Vec3(p.x + size.x, p.y + size.y, p.z), Vec3(p.x, p.y + size.y, p.z)]
  }

  /** The first in-plane axis of a face across `axis` (the one `size.x` extends). */
  function U(axis: Axis): Axis {
    if axis == X then Y else X
  }

  /** The second in-plane axis of a face across `axis` (the one `size.y` extends). */
  function V(axis: Axis): Axis {
    if axis == Z then Y else Z
  }

  /** The point of the face's plane `a` sizes along U and `b` sizes along V from `p` (a, b in {0, 1}). */
  function RectCorner(p: Vec3, size: Vec2, axis: Axis, a: real, b: real): Vec3 {
    match axis
    case X => Vec3(p.x, p.y + a * size.x, p.z + b * size.y)
    case Y => Vec3(p.x + a * size.x, p.y, p.z + b * size.y)
    case Z => Vec3(p.x + a * size.x, p.y + b * size.y, p.z)
  }

  /**
   * Every face lies in the plane through `p` across its axis, and its four
   * corners are exactly the corners of the rectangle spanned by `size.x`
   * along the first in-plane axis and `size.y` along the second
   * (X: y then z, Y: x then z, Z: x then y).
   */
  lemma FaceCornersSpanRectangle(p: Vec3, size: Vec2, axis: Axis, direction: Direction)
    ensures forall k :: 0 <= k < 4 ==> Component(FaceCorners(p, size, axis, direction)[k], axis) == Component(p, axis)
    ensures forall k :: 0 <= k < 4 ==>
      (FaceCorners(p, size, axis, direction)[k] in
        [RectCorner(p, size, axis, 0.0, 0.0), RectCorner(p, size, axis, 1.0, 0.0),
         RectCorner(p, size, axis, 1.0, 1.0), RectCorner(p, size, axis, 0.0, 1.0)])
    ensures forall a, b :: a in {0.0, 1.0} && b in {0.0, 1.0} ==>
      RectCorner(p, size, axis, a, b) in FaceCorners(p, size, axis, direction)
    ensures U(axis) != axis && V(axis) != axis && U(axis) != V(axis)
  {
    var cs := FaceCorners(p, size, axis, direction);
    assert cs[0] in cs && cs[1] in cs && cs[2] in cs && cs[3] in cs;
  }

  /** `a` traversed backwards, starting from its element `k`. */
  function ReversedCycle(a: seq<Vec3>, k: nat): (r: seq<Vec3>)
    requires |a| == 4 && k < 4
    ensures |r| == 4
  {
    seq(4, i requires 0 <= i < 4 => a[(k + 4 - i) % 4])
  }

  /** For every axis, the Negative face visits the Positive face's corners in reverse cyclic order. */
  lemma NegativeFaceReversesPositive(p: Vec3, size: Vec2, axis: Axis)
    ensures exists k :: (0 <= k < 4 &&
      FaceCorners(p, size, axis, Negative) == ReversedCycle(FaceCorners(p, size, axis, Positive), k))
  {
    var pos := FaceCorners(p, size, axis, Positive);
    var k := if axis == X then 3 else 0;
    assert FaceCorners(p, size, axis, Negative) == ReversedCycle(pos, k);
  }

  function Sub(a: Vec3, b: Vec3): Vec3 {
    Vec3(a.x - b.x, a.y - b.y, a.z - b.z)
  }

  function Cross(a: Vec3, b: Vec3): Vec3 {
    Vec3(a.y * b.z - a.z * b.y, a.z * b.x - a.x * b.z, a.x * b.y - a.y * b.x)
  }

  function Dot(a: Vec3, b: Vec3): real {
    a.x * b.x + a.y * b.y + a.z * b.z
  }

  /** The orientation of triangle (a, b, c) seen along `n`: negative means clockwise. */
  function Winding(a: Vec3, b: Vec3, c: Vec3, n: Vec3): real {
    Dot(Cross(Sub(b, a), Sub(c, a)), n)
  }

  /** Both triangles of the face across `axis` have winding `-(size.x * size.y)` about its normal. */
  ghost predicate WoundAgainstNormal(p: Vec3, size: Vec2, axis: Axis, direction: Direction) {
    var cs, n := FaceCorners(p, size, axis, direction), GetNormal(axis, direction);
    && Winding(cs[0], cs[1], cs[2], n) == -(size.x * size.y)
    && Winding(cs[0], cs[2], cs[3], n) == -(size.x * size.y)
  }

  lemma WindingAcrossX(p: Vec3, size: Vec2, direction: Direction)
    ensures WoundAgainstNormal(p, size, X, direction)
  {
    var cs := FaceCorners(p, size, X, direction);
    if direction == Positive {
      assert Sub(cs[1], cs[0]) == Vec3(0.0, size.x, 0.0);
      assert Sub(cs[2], cs[0]) == Vec3(0.0, size.x, -size.y);
      assert Sub(cs[3], cs[0]) == Vec3(0.0, 0.0, -size.y);
    } else {
      assert Sub(cs[1], cs[0]) == Vec3(0.0, size.x, 0.0);
      assert Sub(cs[2], cs[0]) == Vec3(0.0, size.x, size.y);
      assert Sub(cs[3], cs[0]) == Vec3(0.0, 0.0, size.y);
    }
  }

  lemma WindingAcrossY(p: Vec3, size: Vec2, direction: Direction)
    ensures WoundAgainstNormal(p, size, Y, direction)
  {
    var cs := FaceCorners(p, size, Y, direction);
    if direction == Positive {
      assert Sub(cs[1], cs[0]) == Vec3(size.x, 0.0, 0.0);
      assert Sub(cs[2], cs[0]) == Vec3(size.x, 0.0, size.y);
      assert Sub(cs[3], cs[0]) == Vec3(0.0, 0.0, size.y);
    } else {
      assert Sub(cs[1], cs[0]) == Vec3(0.0, 0.0, size.y);
      assert Sub(cs[2], cs[0]) == Vec3(size.x, 0.0, size.y);
      assert Sub(cs[3], cs[0]) == Vec3(size.x, 0.0, 0.0);
    }
  }

  lemma WindingAcrossZ(p: Vec3, size: Vec2, direction: Direction)
    ensures WoundAgainstNormal(p, size, Z, direction)
  {
    var cs := FaceCorners(p, size, Z, direction);
    if direction == Positive {
      assert Sub(cs[1], cs[0]) == Vec3(0.0, size.y, 0.0);
      assert Sub(cs[2], cs[0]) == Vec3(size.x, size.y, 0.0);
      assert Sub(cs[3], cs[0]) == Vec3(size.x, 0.0, 0.0);
    } else {
      assert Sub(cs[1], cs[0]) == Vec3(size.x, 0.0, 0.0);
      assert Sub(cs[2], cs[0]) == Vec3(size.x, size.y, 0.0);
      assert Sub(cs[3], cs[0]) == Vec3(0.0, size.y, 0.0);
    }
  }

  /**
   * Both triangles `add_face` emits wind the same way relative to the
   * face's own normal, for all six faces: the Negative corner order
   * exactly compensates for the flipped normal.
   */
  lemma FaceWindingAgreesWithNormal(p: Vec3, size: Vec2, axis: Axis, direction: Direction)
    ensures var cs, n := FaceCorners(p, size, axis, direction), GetNormal(axis, direction);
      && Winding(cs[0], cs[1], cs[2], n) == -(size.x * size.y)
      && Winding(cs[0], cs[2], cs[3], n) == -(size.x * size.y)
  {
    match axis
    case X => WindingAcrossX(p, size, direction);
    case Y => WindingAcrossY(p, size, direction);
    case Z => WindingAcrossZ(p, size, direction);
  }

  class Mesh {
    var vertices: seq<Vertex>
    var indices: seq<nat>

    /** Every index names an existing vertex. */
    ghost predicate WellFormed()
      reads this
    {
      forall k :: 0 <= k < |indices| ==> indices[k] < |vertices|
    }

    /** `Mesh::new`: no vertices, no indices. */
    constructor ()
      ensures vertices == [] && indices == []
      ensures WellFormed()
    {
      vertices := [];
      indices := [];
    }

    /**
     * `add_quad`: append four vertices with one normal and colour, and the
     * two triangles (s, s+1, s+2), (s, s+2, s+3) where s is the old vertex
     * count; existing entries are untouched.
     */
    method AddQuad(p1: Vec3, p2: Vec3, p3: Vec3, p4: Vec3, normal: Vec3, color: Rgba)
      modifies this
      ensures vertices == old(vertices) + QuadVertices([p1, p2, p3, p4], normal, color)
      ensures indices == old(indices) + FanIndices(|old(vertices)|)
      ensures old(WellFormed()) ==> WellFormed()
    {
      var startIndex := |vertices|;
      vertices := vertices + [Vertex(p1, normal, color), Vertex(p2, normal, color),
                              Vertex(p3, normal, color), Vertex(p4, normal, color)];
      indices := indices + [startIndex, startIndex + 1, startIndex + 2,
                            startIndex, startIndex + 2, startIndex + 3];
    }

    /** `add_face`: the quad of the face's corner table with the axis normal. */
    method AddFace(position: Vec3, size: Vec2, axis: Axis, direction: Direction, color: Rgba)
      modifies this
      ensures vertices == old(vertices) + QuadVertices(FaceCorners(position, size, axis, direction),
                                                       GetNormal(axis, direction), color)
      ensures indices == old(indices) + FanIndices(|old(vertices)|)
      ensures old(WellFormed()) ==> WellFormed()
    {
      var cs := FaceCorners(position, size, axis, direction);
      AddQuad(cs[0], cs[1], cs[2], cs[3], GetNormal(axis, direction), color);
      assert [cs[0], cs[1], cs[2], cs[3]] == cs;
    }
  }
}
