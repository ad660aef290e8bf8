/**
 * The plain mesh types of src/mesh.rs: a vertex carries a position and a
 * colour, and a mesh is a vertex list plus a triangle index list into it.
 */
module MeshData {
  import opened Geometry

  datatype Rgb = Rgb(r: real, g: real, b: real)

  datatype Vertex = Vertex(position: Vec3, color: Rgb)

  /** Indices are `u32` in the source; see `ChunkMesher` for why they stay far below `u32::MAX`. */
  datatype Mesh = Mesh(vertices: seq<Vertex>, indices: seq<nat>)

  const EMPTY_MESH: Mesh := Mesh([], [])

  /** Every index names an existing vertex, so the mesh can be drawn. */
  predicate WellFormed(m: Mesh) {
    forall k :: 0 <= k < |m.indices| ==> m.indices[k] < |m.vertices|
  }
}
