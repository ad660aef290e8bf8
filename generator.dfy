/**
 * The column fill rule of `WorldGenerator::generate_chunk` in
 * src/generator.rs: a voxel becomes Stone exactly when its world height is
 * below the terrain height of its column. The height field itself (Perlin
 * noise remapped to the world height) is an input function here.
 */
module Generator {
  import opened Wrappers
  import opened Geometry
  import opened Utils
  import opened Chunks

  /** The generator's configuration: how many cells it fills along each axis. */
  datatype WorldGenerator = WorldGenerator(chunkSize: UVec3, maxWorldHeight: nat)

  /**
   * Cell `c` of a chunk at `position` is one the generator turns to Stone:
   * it lies in the generated range and its world height is below the
   * height sampled at its column (position.x + x, position.z + z).
   */
  ghost predicate Fills(chunkSize: UVec3, position: UVec3, height: (nat, nat) -> nat, c: UVec3) {
    InBounds(c, chunkSize) && position.y + c.y < height(position.x + c.x, position.z + c.z)
  }

  /** Flat index `i` belongs to some cell the generator fills. */
  ghost predicate FilledIndex(chunkSize: UVec3, position: UVec3, height: (nat, nat) -> nat, i: nat) {
    exists c :: Fills(chunkSize, position, height, c) && CoordToIndex(c, CHUNK_SIZE) == i
  }

  /**
   * What a generated voxel vector looks like: every filled cell whose flat
   * index exists is Stone, and every Stone cell is the flat index of some
   * filled cell (Air and Stone are the only voxel kinds of this chunk).
   */
  ghost predicate Generated(voxels: seq<Voxel>, chunkSize: UVec3, position: UVec3, height: (nat, nat) -> nat) {
    && (forall c :: Fills(chunkSize, position, height, c) && CoordToIndex(c, CHUNK_SIZE) < |voxels| ==>
          voxels[CoordToIndex(c, CHUNK_SIZE)] == Stone)
    && (forall i :: 0 <= i < |voxels| && voxels[i] == Stone ==> FilledIndex(chunkSize, position, height, i))
  }

  /**
   * The loop nest's progress up to step (x, z, y): every filled cell
   * visited before that step is Stone, and `why` names a filled cell
   * behind every Stone voxel.
   */
  ghost predicate Progress(voxels: seq<Voxel>, chunkSize: UVec3, position: UVec3, height: (nat, nat) -> nat,
                           why: map<nat, UVec3>, x: nat, z: nat, y: nat) {
    && (forall c :: Fills(chunkSize, position, height, c) && VisitedBefore(c, x, z, y) && CoordToIndex(c, CHUNK_SIZE) < |voxels| ==>
          voxels[CoordToIndex(c, CHUNK_SIZE)] == Stone)
    && (forall i :: 0 <= i < |voxels| && voxels[i] == Stone ==>
          i in why && Fills(chunkSize, position, height, why[i]) && CoordToIndex(why[i], CHUNK_SIZE) == i)
  }

  /** The innermost loop of `generate_chunk`: one column, bottom to top, against its sampled height `h`. */
  method FillColumn(chunk: Chunk, chunkSize: UVec3, position: UVec3, height: (nat, nat) -> nat,
                    x: nat, z: nat, ghost why: map<nat, UVec3>) returns (ghost why': map<nat, UVec3>)
    requires chunk.Valid() && x < chunkSize.x && z < chunkSize.z
    requires Progress(chunk.voxels, chunkSize, position, height, why, x, z, 0)
    modifies chunk
    ensures chunk.Valid()
    ensures Progress(chunk.voxels, chunkSize, position, height, why', x, z + 1, 0)
  {
    why' := why;
    var h := height(position.x + x, position.z + z);
    for y := 0 to chunkSize.y
      invariant chunk.Valid()
      invariant Progress(chunk.voxels, chunkSize, position, height, why', x, z, y)
    {
      if position.y + y < h {
        var cell := UVec3(x, y, z);
        assert Fills(chunkSize, position, height, cell);
        chunk.SetVoxel(cell, Stone);
        why' := why'[CoordToIndex(cell, CHUNK_SIZE) := cell];
      }
    }
  }

  /**
   * `generate_chunk`: a fresh chunk at `position` in which, column by
   * column, every cell below the column's height is set to Stone through
   * `set_voxel`.
   */
  method GenerateChunk(generator: WorldGenerator, position: UVec3, height: (nat, nat) -> nat)
    returns (chunk: Chunk)
    ensures fresh(chunk) && chunk.Valid()
    ensures chunk.transform == Transform(ToVec3(position), QUAT_IDENTITY, VEC3_ONE)
    ensures Generated(chunk.voxels, generator.chunkSize, position, height)
  {
    var size := generator.chunkSize;
    chunk := new Chunk(position);
    // A filled cell that explains each Stone voxel.
    ghost var why: map<nat, UVec3> := map[];
    for x := 0 to size.x
      invariant chunk.Valid()
      invariant Progress(chunk.voxels, size, position, height, why, x, 0, 0)
    {
      for z := 0 to size.z
        invariant chunk.Valid()
        invariant Progress(chunk.voxels, size, position, height, why, x, z, 0)
      {
        why := FillColumn(chunk, size, position, height, x, z, why);
      }
    }
    forall i | 0 <= i < |chunk.voxels| && chunk.voxels[i] == Stone
      ensures FilledIndex(size, position, height, i)
    {
      assert Fills(size, position, height, why[i]);
    }
  }

  /**
   * When the generated range fits the 16-cubed chunk (no two cells share a
   * flat index), `get_voxel` on a generated chunk answers Stone exactly for
   * the filled cells and Air for every other in-bounds cell.
   */
  lemma GeneratedCellIsStoneIffBelowHeight(voxels: seq<Voxel>, chunkSize: UVec3, position: UVec3,
                                           height: (nat, nat) -> nat, c: UVec3)
    requires |voxels| == VOXEL_COUNT && Generated(voxels, chunkSize, position, height)
    requires chunkSize.x <= CHUNK_SIZE.x && chunkSize.y <= CHUNK_SIZE.y && chunkSize.z <= CHUNK_SIZE.z
    requires InBounds(c, CHUNK_SIZE)
    ensures Lookup(voxels, c) == Some(if Fills(chunkSize, position, height, c) then Stone else Air)
  {
    var i := CoordToIndex(c, CHUNK_SIZE);
    CoordToIndexBound(c, CHUNK_SIZE);
    ChunkVolume();
    if voxels[i] == Stone {
      var d :| Fills(chunkSize, position, height, d) && CoordToIndex(d, CHUNK_SIZE) == i;
      CoordToIndexInjective(c, d, CHUNK_SIZE);
    }
  }

  /**
   * Within the chunk, Stone in a column is a run from y = 0 upwards: below
   * a Stone cell every cell of the same column is Stone.
   */
  lemma GeneratedColumnsAreContiguous(voxels: seq<Voxel>, chunkSize: UVec3, position: UVec3,
                                      height: (nat, nat) -> nat, c: UVec3, y: nat)
    requires |voxels| == VOXEL_COUNT && Generated(voxels, chunkSize, position, height)
    requires chunkSize.x <= CHUNK_SIZE.x && chunkSize.y <= CHUNK_SIZE.y && chunkSize.z <= CHUNK_SIZE.z
    requires InBounds(c, CHUNK_SIZE) && y <= c.y
    ensures Lookup(voxels, c) == Some(Stone) ==> Lookup(voxels, UVec3(c.x, y, c.z)) == Some(Stone)
  {
    GeneratedCellIsStoneIffBelowHeight(voxels, chunkSize, position, height, c);
    GeneratedCellIsStoneIffBelowHeight(voxels, chunkSize, position, height, UVec3(c.x, y, c.z));
  }

  /**
   * Columns are independent: two generated chunks whose height functions
   * agree on one column's sample point agree on every cell of that column.
   */
  lemma GeneratedColumnDependsOnlyOnItsHeight(v1: seq<Voxel>, v2: seq<Voxel>, chunkSize: UVec3, position: UVec3,
                                              h1: (nat, nat) -> nat, h2: (nat, nat) -> nat, c: UVec3)
    requires |v1| == VOXEL_COUNT && Generated(v1, chunkSize, position, h1)
    requires |v2| == VOXEL_COUNT && Generated(v2, chunkSize, position, h2)
    requires chunkSize.x <= CHUNK_SIZE.x && chunkSize.y <= CHUNK_SIZE.y && chunkSize.z <= CHUNK_SIZE.z
    requires InBounds(c, CHUNK_SIZE)
    requires h1(position.x + c.x, position.z + c.z) == h2(position.x + c.x, position.z + c.z)
    ensures Lookup(v1, c) == Lookup(v2, c)
  {
    GeneratedCellIsStoneIffBelowHeight(v1, chunkSize, position, h1, c);
    GeneratedCellIsStoneIffBelowHeight(v2, chunkSize, position, h2, c);
  }
}
