/**
 * A chunk: a fixed 16 x 16 x 16 block of voxels stored flat in
 * `CoordToIndex` order (src/chunk.rs).
 *
 * `get_voxel` checks every axis against the chunk size, but `set_voxel`
 * checks only that the flat index is inside the vector, so an
 * out-of-range coordinate whose flat index is still below 4096 writes
 * into some other cell (`SetVoxelAliasesOutOfRange`).
 */
module Chunks {
  import opened Geometry
  import opened Wrappers
  import opened Utils

  /** The voxel kinds of this snapshot of the chunk code. */
  datatype Voxel = Air | Stone

  const CHUNK_SIZE: UVec3 := UVec3(16, 16, 16)
  const VOXEL_COUNT: nat := 4096

  lemma ChunkVolume()
    ensures Volume(CHUNK_SIZE) == VOXEL_COUNT
  {
  }

  /** What `get_voxel` reads from a voxel vector: nothing for a coordinate outside the chunk. */
  function Lookup(voxels: seq<Voxel>, p: UVec3): (r: Option<Voxel>)
    ensures |voxels| == VOXEL_COUNT ==> (r.None? <==> !InBounds(p, CHUNK_SIZE))
    ensures r.Some? ==> CoordToIndex(p, CHUNK_SIZE) < |voxels| && r.value == voxels[CoordToIndex(p, CHUNK_SIZE)]
  {
    if p.x >= CHUNK_SIZE.x || p.y >= CHUNK_SIZE.y || p.z >= CHUNK_SIZE.z then None
    else
      var index := CoordToIndex(p, CHUNK_SIZE);
      if index < |voxels| then Some(voxels[index]) else None
  }

  /** What `set_voxel` leaves in a voxel vector: one cell replaced if its flat index exists. */
  function Written(voxels: seq<Voxel>, p: UVec3, v: Voxel): (r: seq<Voxel>)
    ensures |r| == |voxels|
    ensures forall i :: 0 <= i < |r| && i != CoordToIndex(p, CHUNK_SIZE) ==> r[i] == voxels[i]
    ensures CoordToIndex(p, CHUNK_SIZE) < |voxels| ==> r[CoordToIndex(p, CHUNK_SIZE)] == v
    ensures CoordToIndex(p, CHUNK_SIZE) >= |voxels| ==> r == voxels
  {
    var index := CoordToIndex(p, CHUNK_SIZE);
    if index < |voxels| then voxels[index := v] else voxels
  }

  /** Inside the chunk, a write is seen by a read of the same cell and by no other cell. */
  lemma SetThenGet(voxels: seq<Voxel>, p: UVec3, q: UVec3, v: Voxel)
    requires |voxels| == VOXEL_COUNT && InBounds(p, CHUNK_SIZE)
    ensures Lookup(Written(voxels, p, v), p) == Some(v)
    ensures q != p ==> Lookup(Written(voxels, p, v), q) == Lookup(voxels, q)
  {
    CoordToIndexBound(p, CHUNK_SIZE);
    if q != p && InBounds(q, CHUNK_SIZE) {
      CoordToIndexInjective(p, q, CHUNK_SIZE);
      CoordToIndexBound(q, CHUNK_SIZE);
    }
  }

  /**
   * Outside the chunk the round trip fails: writing at (16, 0, 0) is not
   * readable there, and it overwrites the in-bounds cell (0, 1, 0).
   */
  lemma SetVoxelAliasesOutOfRange(voxels: seq<Voxel>, v: Voxel)
    requires |voxels| == VOXEL_COUNT
    ensures Lookup(Written(voxels, UVec3(16, 0, 0), v), UVec3(16, 0, 0)) == None
    ensures Lookup(Written(voxels, UVec3(16, 0, 0), v), UVec3(0, 1, 0)) == Some(v)
  {
  }

  /** A write whose flat index is past the end of the vector changes nothing. */
  lemma SetVoxelBeyondEndIsNoop(voxels: seq<Voxel>, p: UVec3, v: Voxel)
    requires |voxels| == VOXEL_COUNT && p.z >= CHUNK_SIZE.z
    ensures Written(voxels, p, v) == voxels
  {
    assert CoordToIndex(p, CHUNK_SIZE) >= p.z * 256;
  }

  class Chunk {
    const transform: Transform
    var voxels: seq<Voxel>

    /** The vector always holds exactly one voxel per cell. */
    ghost predicate Valid()
      reads this
    {
      |voxels| == VOXEL_COUNT
    }

    /** `Chunk::new`: an all-Air chunk placed at its (unscaled) grid position. */
    constructor (position: UVec3)
      ensures Valid()
      ensures forall i :: 0 <= i < |voxels| ==> voxels[i] == Air
      ensures transform == Transform(ToVec3(position), QUAT_IDENTITY, VEC3_ONE)
    {
      transform := Transform(ToVec3(position), QUAT_IDENTITY, VEC3_ONE);
      voxels := seq(VOXEL_COUNT, _ => Air);
    }

    /** `get_voxel`: the voxel at `p`, or nothing when some coordinate is 16 or more. */
    function GetVoxel(p: UVec3): (r: Option<Voxel>)
      reads this
      requires Valid()
      ensures r.None? <==> !InBounds(p, CHUNK_SIZE)
      ensures r.Some? ==> r.value == voxels[CoordToIndex(p, CHUNK_SIZE)]
    {
      Lookup(voxels, p)
    }

    /** `set_voxel`: replace the cell at `p`'s flat index, if that index exists. */
    method SetVoxel(p: UVec3, v: Voxel)
      modifies this
      ensures voxels == Written(old(voxels), p, v)
      ensures old(Valid()) ==> Valid()
    {
      var index := CoordToIndex(p, CHUNK_SIZE);
      if index < |voxels| {
        voxels := voxels[index := v];
      }
    }

    /** `iter`: a fresh iterator positioned at index 0. */
    method Iter() returns (it: ChunkIterator)
      ensures fresh(it) && it.chunk == this && it.currentIndex == 0
    {
      it := new ChunkIterator(this);
    }
  }

  /** Walks a chunk's voxels in index order, yielding each with its index. */
  class ChunkIterator {
    const chunk: Chunk
    var currentIndex: nat

    constructor (chunk: Chunk)
      ensures this.chunk == chunk && currentIndex == 0
    {
      this.chunk := chunk;
      currentIndex := 0;
    }

    /** `next`: the pair at the current index and advance, or nothing (for ever) once past the end. */
    method Next() returns (r: Option<(Voxel, nat)>)
      modifies this
      ensures old(currentIndex) < |chunk.voxels| ==>
        r == Some((chunk.voxels[old(currentIndex)], old(currentIndex))) && currentIndex == old(currentIndex) + 1
      ensures old(currentIndex) >= |chunk.voxels| ==> r == None && currentIndex == old(currentIndex)
    {
      if currentIndex < |chunk.voxels| {
        var voxel := chunk.voxels[currentIndex];
        var index := currentIndex;
        currentIndex := currentIndex + 1;
        r := Some((voxel, index));
      } else {
        r := None;
      }
    }
  }
}
