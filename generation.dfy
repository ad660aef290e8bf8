/**
 * The per-column layering rule of `generate_chunk` in src/generation.rs.
 * The noise-built terrain height and the sea level (both floored to
 * voxels) are inputs; what remains is which voxel each world height gets:
 * a Grass or Sand surface, a Dirt or Sand band under it, Stone below that,
 * and Water filling everything above the terrain up to the sea level.
 */
module Generation {
  import opened Wrappers
  import opened Geometry
  import opened Utils

  /** The voxel kinds of the layered generator (a later snapshot than src/chunk.rs). */
  datatype Voxel = Air | Stone | Sand | Grass | Dirt | Water

  const I32_MIN: int := -0x8000_0000
  const I32_MAX: int := 0x7FFF_FFFF

  type I32 = x: int | I32_MIN <= x <= I32_MAX
  type U32 = x: nat | x <= U32_MAX

  /** `u as i32`: the signed 32-bit integer with the same bits as the unsigned `u`. */
  function AsI32(u: U32): (r: I32)
    ensures (r - u) % 0x1_0000_0000 == 0
  {
    if u <= I32_MAX then u else u - 0x1_0000_0000
  }

  /** `i32::saturating_sub`: `a - b` clamped to the 32-bit signed range. */
  function SaturatingSubI32(a: I32, b: I32): (r: I32)
    ensures I32_MIN <= a - b <= I32_MAX ==> r == a - b
    ensures a - b < I32_MIN ==> r == I32_MIN
    ensures a - b > I32_MAX ==> r == I32_MAX
  {
    if a - b < I32_MIN then I32_MIN else if a - b > I32_MAX then I32_MAX else a - b
  }

  /** A solid ground voxel. */
  predicate Solid(v: Voxel) {
    v == Sand || v == Grass || v == Dirt || v == Stone
  }

  /**
   * The branch chain for one cell at world height `globalY` in a column
   * whose terrain height is `th`: the voxel written, or None when the
   * cell is left as it is.
   */
  function Classify(globalY: I32, th: I32, dirt: U32, sea: I32): (r: Option<Voxel>)
    ensures r != Some(Air)
    ensures globalY <= th <==> r.Some? && Solid(r.value)
    ensures r == Some(Water) <==> th < globalY <= sea
    ensures r == None <==> th < globalY && sea < globalY
  {
    if globalY == th then
      Some(if globalY <= sea then Sand else Grass)
    else if globalY >= SaturatingSubI32(th, AsI32(dirt)) && globalY < th then
      Some(if globalY <= sea then Sand else Dirt)
    else if globalY < th then
      Some(Stone)
    else if globalY <= sea then
      Some(Water)
    else
      None
  }

  /** The terrain surface cell is Sand at or below sea level, Grass above it. */
  lemma SurfaceIsSandOrGrass(globalY: I32, th: I32, dirt: U32, sea: I32)
    requires globalY == th
    ensures Classify(globalY, th, dirt, sea) == Some(if globalY <= sea then Sand else Grass)
  {
  }

  /** The `dirt` cells under the surface are Sand at or below sea level, Dirt above it. */
  lemma BandUnderSurfaceIsSandOrDirt(globalY: I32, th: I32, dirt: U32, sea: I32)
    requires dirt <= I32_MAX && th - dirt <= globalY < th
    ensures Classify(globalY, th, dirt, sea) == Some(if globalY <= sea then Sand else Dirt)
  {
  }

  /** Everything deeper than the band is Stone. */
  lemma BelowBandIsStone(globalY: I32, th: I32, dirt: U32, sea: I32)
    requires dirt <= I32_MAX && globalY < th - dirt
    ensures Classify(globalY, th, dirt, sea) == Some(Stone)
  {
  }

  /**
   * A thickness of 2^31 or more turns negative in the cast to i32, so the
   * band's lower edge lands above the surface and the band disappears:
   * every cell under the surface is Stone.
   */
  lemma WrappedThicknessLeavesNoBand(globalY: I32, th: I32, dirt: U32, sea: I32)
    requires dirt > I32_MAX && globalY < th
    ensures Classify(globalY, th, dirt, sea) == Some(Stone)
  {
    assert AsI32(dirt) < 0;
  }

  /** What generation leaves in a cell: the classified voxel, or Air where nothing is written. */
  function Settled(r: Option<Voxel>): Voxel {
    match r
    case Some(v) => v
    case None => Air
  }

  /**
   * The bottom and the top layer of a chunk at `gridPosition` have world
   * heights inside the i32 range.
   */
  predicate LayersFitI32(chunkSize: UVec3, gridPosition: IVec3) {
    chunkSize.y <= I32_MAX &&
    (chunkSize.y == 0 ||
     (I32_MIN <= chunkSize.y * gridPosition.y && chunkSize.y * gridPosition.y + chunkSize.y - 1 <= I32_MAX))
  }

  /**
   * `chunk_size.y as i32 * grid_position.y + y`: the world height of local
   * layer `y`. Every layer of a chunk whose end layers fit in an i32 fits
   * too, so the i32 arithmetic never overflows there.
   */
  function GlobalY(chunkSize: UVec3, gridPosition: IVec3, y: nat): (h: int)
    ensures LayersFitI32(chunkSize, gridPosition) && y < chunkSize.y ==> I32_MIN <= h <= I32_MAX
  {
    chunkSize.y * gridPosition.y + y
  }

  /**
   * The world column (x, z) at which the terrain height of local column
   * (c.x, c.z) is sampled: `grid_position * chunk_size` plus the local
   * offset. Dividing it by the chunk size gives back the grid position and
   * the local column, so every world column is sampled by exactly one
   * chunk and one of its columns.
   */
  function Column(chunkSize: UVec3, gridPosition: IVec3, c: UVec3): (w: (int, int))
    ensures c.x < chunkSize.x ==> w.0 / chunkSize.x == gridPosition.x && w.0 % chunkSize.x == c.x
    ensures c.z < chunkSize.z ==> w.1 / chunkSize.z == gridPosition.z && w.1 % chunkSize.z == c.z
  {
    OffsetDecodes(gridPosition.x, chunkSize.x, c.x);
    OffsetDecodes(gridPosition.z, chunkSize.z, c.z);
    (gridPosition.x * chunkSize.x + c.x, gridPosition.z * chunkSize.z + c.z)
  }

  /** `g * n + c` with a local offset `c < n` divides back into `g` and `c`. */
  lemma OffsetDecodes(g: int, n: nat, c: nat)
    ensures c < n ==> (g * n + c) / n == g && (g * n + c) % n == c
  {
    if c < n {
      DivModOf(g * n + c, n, g, c);
    }
  }

  /** The generator's options that the layering rule reads. */
  datatype WorldGenerationOptions = WorldGenerationOptions(chunkSize: UVec3, maxHeight: nat, dirtLayerThickness: U32)

  /** The voxel generation puts at local cell `c`. */
  function Expected(options: WorldGenerationOptions, gridPosition: IVec3, terrainHeight: (int, int) -> I32,
                    sea: I32, c: UVec3): Voxel
    requires LayersFitI32(options.chunkSize, gridPosition) && c.y < options.chunkSize.y
  {
    var col := Column(options.chunkSize, gridPosition, c);
    Settled(Classify(GlobalY(options.chunkSize, gridPosition, c.y), terrainHeight(col.0, col.1),
                     options.dirtLayerThickness, sea))
  }

  /** The chunk of this generator: a grid position, a size and one voxel per cell. */
  class Chunk {
    const gridPosition: IVec3
    const size: UVec3
    var voxels: seq<Voxel>

    ghost predicate Valid()
      reads this
    {
      |voxels| == Volume(size)
    }

    /** `Chunk::new(grid_position, size)`: an all-Air chunk of the given size. */
    constructor (gridPosition: IVec3, size: UVec3)
      ensures this.gridPosition == gridPosition && this.size == size
      ensures Valid() && forall i :: 0 <= i < |voxels| ==> voxels[i] == Air
    {
      this.gridPosition := gridPosition;
      this.size := size;
      voxels := seq(Volume(size), _ => Air);
    }

    /** `set_voxel`: replace the voxel at an in-bounds cell; out-of-bounds cells are ignored. */
    method SetVoxel(p: UVec3, v: Voxel)
      requires Valid()
      modifies this
      ensures Valid()
      ensures InBounds(p, size) ==> CoordToIndex(p, size) < |voxels| && voxels == old(voxels)[CoordToIndex(p, size) := v]
      ensures !InBounds(p, size) ==> voxels == old(voxels)
    {
      if InBounds(p, size) {
        CoordToIndexBound(p, size);
        voxels := voxels[CoordToIndex(p, size) := v];
      }
    }
  }

  /** Generation so far: the cells visited before step (x, z, y) hold their voxel, the others are still Air. */
  ghost predicate Progress(chunk: Chunk, options: WorldGenerationOptions, gridPosition: IVec3,
                           terrainHeight: (int, int) -> I32, sea: I32, x: nat, z: nat, y: nat)
    reads chunk
    requires chunk.Valid() && chunk.size == options.chunkSize && LayersFitI32(options.chunkSize, gridPosition)
  {
    forall c :: InBounds(c, chunk.size) ==>
      CoordToIndex(c, chunk.size) < |chunk.voxels| &&
      chunk.voxels[CoordToIndex(c, chunk.size)] ==
        (if VisitedBefore(c, x, z, y) then Expected(options, gridPosition, terrainHeight, sea, c) else Air)
  }

  /** Writing cell `p` of an in-bounds grid leaves every other in-bounds cell's slot alone. */
  lemma OtherCellsUntouched(voxels: seq<Voxel>, size: UVec3, p: UVec3, v: Voxel)
    requires |voxels| == Volume(size) && InBounds(p, size)
    ensures CoordToIndex(p, size) < |voxels|
    ensures forall c :: InBounds(c, size) && c != p ==>
      CoordToIndex(c, size) < |voxels| &&
      voxels[CoordToIndex(p, size) := v][CoordToIndex(c, size)] == voxels[CoordToIndex(c, size)]
  {
    CoordToIndexBound(p, size);
    forall c | InBounds(c, size) && c != p
      ensures CoordToIndex(c, size) < |voxels| && CoordToIndex(c, size) != CoordToIndex(p, size)
    {
      CoordToIndexBound(c, size);
      CoordToIndexInjective(c, p, size);
    }
  }

  /** The innermost loop of `generate_chunk`: one column, bottom to top, against its terrain height. */
  method FillColumn(chunk: Chunk, options: WorldGenerationOptions, gridPosition: IVec3,
                    terrainHeight: (int, int) -> I32, sea: I32, x: nat, z: nat)
    requires chunk.Valid() && chunk.size == options.chunkSize && LayersFitI32(options.chunkSize, gridPosition)
    requires x < options.chunkSize.x && z < options.chunkSize.z
    requires Progress(chunk, options, gridPosition, terrainHeight, sea, x, z, 0)
    modifies chunk
    ensures chunk.Valid()
    ensures Progress(chunk, options, gridPosition, terrainHeight, sea, x, z + 1, 0)
  {
    var size := options.chunkSize;
    var col := Column(size, gridPosition, UVec3(x, 0, z));
    var th := terrainHeight(col.0, col.1);
    for y := 0 to size.y
      invariant chunk.Valid()
      invariant Progress(chunk, options, gridPosition, terrainHeight, sea, x, z, y)
    {
      var globalY: I32 := GlobalY(size, gridPosition, y);
      var cell := UVec3(x, y, z);
      var r := Classify(globalY, th, options.dirtLayerThickness, sea);
      assert r == Some(Expected(options, gridPosition, terrainHeight, sea, cell)) || r == None;
      OtherCellsUntouched(chunk.voxels, size, cell, Settled(r));
      if r.Some? {
        chunk.SetVoxel(cell, r.value);
      }
    }
  }

  /**
   * `generate_chunk`: a fresh chunk at `gridPosition` whose every cell
   * holds the layer its world height and its column's terrain height call
   * for, and Air above both the terrain and the sea.
   */
  method GenerateChunk(options: WorldGenerationOptions, gridPosition: IVec3,
                       terrainHeight: (int, int) -> I32, seaLevelVoxels: I32) returns (chunk: Chunk)
    requires LayersFitI32(options.chunkSize, gridPosition)
    ensures fresh(chunk) && chunk.Valid()
    ensures chunk.gridPosition == gridPosition && chunk.size == options.chunkSize
    ensures forall c :: InBounds(c, chunk.size) ==>
      CoordToIndex(c, chunk.size) < |chunk.voxels| &&
      chunk.voxels[CoordToIndex(c, chunk.size)] == Expected(options, gridPosition, terrainHeight, seaLevelVoxels, c)
  {
    chunk := new Chunk(gridPosition, options.chunkSize);
    forall c | InBounds(c, chunk.size)
      ensures CoordToIndex(c, chunk.size) < |chunk.voxels|
    {
      CoordToIndexBound(c, chunk.size);
    }
    for x := 0 to options.chunkSize.x
      invariant chunk.Valid()
      invariant Progress(chunk, options, gridPosition, terrainHeight, seaLevelVoxels, x, 0, 0)
    {
      for z := 0 to options.chunkSize.z
        invariant chunk.Valid()
        invariant Progress(chunk, options, gridPosition, terrainHeight, seaLevelVoxels, x, z, 0)
      {
        FillColumn(chunk, options, gridPosition, terrainHeight, seaLevelVoxels, x, z);
      }
    }
  }
}
