# Voxel chunk data layer, modelled in Dafny

This project models the voxel-chunk data layer of the `voxel` engine (Rust) and proves properties about it:

- **Flat indexing and chunk storage.** A 3D cell coordinate is flattened with x fastest, then y, then z. A chunk is a 16 x 16 x 16 vector of voxels with a bounds-checked `get_voxel`, a `set_voxel` that checks only the flat index, and an index-ordered iterator.
- **The face-culling mesher.** It builds a six-bit mask of Air neighbours with saturating coordinate arithmetic, then emits one quad per set bit of every Stone voxel. Each quad is appended to growing vertex and index vectors.
- **The quad and face builders.** These are a unit-cube face table and an axis/direction face table. `as_mesh` builds a fresh four-vertex, two-triangle mesh for one face of a cube, while `add_quad` and `add_face` append four vertices and two triangles to an existing mesh.
- **The two terrain fill rules.** Each rule is taken with its terrain height as an input function:
  - the Air/Stone column fill of `WorldGenerator::generate_chunk`;
  - the Sand/Grass/Dirt/Stone/Water layering of `generate_chunk`.
- **Frame bookkeeping of the application loop:**
  - the bounded FIFO `Queue`;
  - the ring of in-flight frame slots;
  - the frame statistics with their one-second FPS rollover;
  - the F3-driven three-state statistics overlay.

The model takes the source's own form. State the source mutates lives in classes with `seq` fields and `modifies` clauses:

- `Chunk`, `ChunkIterator` and `Mesh`;
- `Queue`, `InFlightFrames` and `FrameStats`;
- the generation chunk.

Loops become methods with loop invariants:

- `get_neighbouring_voxels` and `mesh`;
- both `generate_chunk` loop nests.

Each of these methods is proved against a specification function:

- `MeshChunk` builds exactly `QuadsOf(MeshFaces(voxels))`.
- `Generator.GenerateChunk` produces a vector satisfying `Generated`.
- `Generation.GenerateChunk` puts `Expected(...)` in every cell.
- `Queue.Push` yields `Pushed(old items, ...)`.
- `FrameStats.Tick` advances the FPS state by `Advance`.

Lemmas then prove what the source promises about those functions.

Each core file has its own module:

- `Utils` (src/utils.rs);
- `Chunks` and `ChunkMesher` (src/chunk.rs);
- `Quad` (src/quad.rs);
- `ChunkMesh` (src/chunk/mesh.rs);
- `Generator` (src/generator.rs);
- `Generation` (src/generation.rs);
- `AppUtils` (crates/app/src/utils.rs and the copy in src/app.rs);
- `AppFrames` (src/app.rs and crates/app/src/lib.rs).

`Geometry`, `MeshData` and `Wrappers` hold shared value types:

- the `glam` vectors;
- the `Vertex`/`Mesh` records of src/mesh.rs;
- `Option`.

`set_voxel` checks only the flat index, so (16, 0, 0) overwrites cell (0, 1, 0); `Chunks.SetVoxelAliasesOutOfRange` proves this.

## Model

| member | source | states |
|---|---|---|
| Utils.CoordToIndex | src/utils.rs:1-5 | `coord_to_index` has no contract of its own: its meaning is stated by CoordToIndexSteps, CoordToIndexBound, CoordRoundTrip, IndexRoundTrip and CoordToIndexInjective below |
| Utils.IndexToCoord | src/chunk.rs:98 | the stand-in for `index_to_coord` yields x and y components inside the grid |
| Utils.CoordToIndexSteps | src/utils.rs:2-4 | x varies fastest: one step in x, y or z moves the flat index by 1, sx or sx·sy |
| Utils.CoordToIndexBound | src/utils.rs:1-5 | every in-bounds coordinate has a flat index below sx·sy·sz |
| Utils.CoordRoundTrip | src/utils.rs:1-5 | decoding the flat index of an in-bounds cell gives the cell back |
| Utils.IndexRoundTrip | src/utils.rs:1-5 | every index below sx·sy·sz is the flat index of the in-bounds cell it decodes to (the flattening is onto) |
| Utils.CoordToIndexInjective | src/utils.rs:1-5 | two in-bounds cells with the same flat index are the same cell |
| Utils.CoordToIndexAliasesOutOfBounds | src/utils.rs:1-5 | outside the bounds the flattening is not injective: (sx,0,0) and (0,1,0) share an index |
| Geometry.SaturatingAdd | src/chunk.rs:132 | a u32 component plus a signed offset is the exact sum when it fits, 0 below, u32::MAX above |
| Geometry.SaturatingAddSigned | src/chunk.rs:132 | `saturating_add_signed` clamps each component independently |
| Chunks.ChunkVolume | src/chunk.rs:31-34 | a chunk holds 16·16·16 = 4096 voxels |
| Chunks.Lookup | src/chunk.rs:38-45 | the read is None exactly when some coordinate is 16 or more, otherwise the voxel at the flat index |
| Chunks.Written | src/chunk.rs:47-52 | the write replaces only the cell at the flat index, and changes nothing when that index is past the end |
| Chunks.SetThenGet | src/chunk.rs:38-52 | inside the chunk a write is read back at its cell and seen at no other cell |
| Chunks.SetVoxelAliasesOutOfRange | src/chunk.rs:47-52 | writing at (16,0,0) is not readable there and overwrites the in-bounds cell (0,1,0) |
| Chunks.SetVoxelBeyondEndIsNoop | src/chunk.rs:47-52 | a write with z ≥ 16 leaves the voxels unchanged |
| Chunks.Chunk.constructor | src/chunk.rs:24-36 | a new chunk holds 4096 voxels, all Air, with the unscaled position, identity rotation and unit scale |
| Chunks.Chunk.GetVoxel | src/chunk.rs:38-45 | `get_voxel` is None iff the coordinate is out of bounds, else `voxels[coord_to_index(p)]` |
| Chunks.Chunk.SetVoxel | src/chunk.rs:47-52 | `set_voxel` leaves exactly `Written(old voxels, p, v)` and keeps the voxel count |
| Chunks.Chunk.Iter | src/chunk.rs:54-59 | a fresh iterator over this chunk starting at index 0 |
| Chunks.ChunkIterator.constructor | src/chunk.rs:55-58 | the iterator starts at index 0 of its chunk |
| Chunks.ChunkIterator.Next | src/chunk.rs:74-83 | each call yields (voxel, index) at the current index and advances by one; past the end it yields None and stays |
| Quad.FromI64 | src/quad.rs:21-29 | `from_i64` is defined exactly on 0..5 and yields the face with that discriminant |
| Quad.FaceIndex | src/quad.rs:21-29 | a face's discriminant is below 6 |
| Quad.FaceIndexRoundTrip | src/quad.rs:21-29 | every face's discriminant is below 6 and converts back to the same face |
| Quad.DirectionsAreDistinctUnitAxes | src/quad.rs:31-42 | the six directions are distinct unit axis vectors; Front/Back, Top/Bottom and Left/Right are opposite |
| Quad.Direction | src/quad.rs:31-42 | the `IVec3` of a face has no contract of its own: DirectionsAreDistinctUnitAxes states its meaning |
| Quad.Corner | src/quad.rs:136-148 | the cube-corner table has no contract of its own: CornerIsCubeCorner states its meaning |
| Quad.CornerIsCubeCorner | src/quad.rs:136-148 | every corner has each coordinate −1 or +1, and the Front corners are exactly those at z = −1 |
| Quad.DefaultQuadIsUnitCubeFace | src/quad.rs:10-19 | with the default options (half size 0.5, origin, base index 0, cyan) every vertex coordinate is ±0.5, the colour is cyan and the indices name vertices 0..3 |
| Quad.FaceCorners | src/quad.rs:66-121 | each face's corner table has four corners |
| Quad.QuadSideVersusDirection | src/quad.rs:66-121 | each face's corners share one coordinate (Top y=+1, Bottom y=−1, Left x=−1, Right x=+1, Front z=−1, Back z=+1), so Front and Back lie on the side opposite their direction |
| Quad.CornerPositions | src/quad.rs:136-148 | the corner positions of a face, four of them |
| Quad.FaceCornersCoverPlane | src/quad.rs:66-121 | a face's four corners are pairwise distinct and are exactly the four ±1 points of its plane |
| Quad.QuadIndices | src/quad.rs:46-53 | six indices, all within [b, b+3], using each of b..b+3 |
| Quad.AsMesh | src/quad.rs:45-122 | `as_mesh` gives 4 vertices with the options' colour, placed at corner·half_size + base_position, and indices [b, b+1, b+3, b+1, b+2, b+3] |
| Quad.PlaceInjective | src/quad.rs:56-61 | with a nonzero half size, distinct corners are placed at distinct points |
| Quad.AsMeshVerticesDistinct | src/quad.rs:54-121 | the four vertices of a quad with a nonzero half size are at distinct positions |
| ChunkMesher.FaceAt | src/chunk.rs:106-107 | the face converted from bit number i has discriminant i, so the `expect` never fails for i < 6 |
| ChunkMesher.CellPos | src/chunk.rs:103 | the cell decoded from a flat index has x, y < 16 |
| ChunkMesher.CellPosRoundTrip | src/chunk.rs:98 | every voxel index decodes to an in-bounds cell whose flat index it is |
| ChunkMesher.Neighbour | src/chunk.rs:132 | `saturating_add_signed` of the face direction has no contract of its own: NeighbourStepsOrStays states its meaning |
| ChunkMesher.NeighbourStepsOrStays | src/chunk.rs:126-140 | the inspected neighbour is one step along the face's direction on each axis, or the same coordinate where that step would leave the u32 range |
| ChunkMesher.GetNeighbouringVoxels | src/chunk.rs:126-140 | bit i is set iff the saturating neighbour in face i's direction is inside the chunk and holds the voxel; the mask is below 64 |
| ChunkMesher.CellFacesMembers | src/chunk.rs:101-117 | the faces emitted for one voxel among faces 0..j−1 are exactly its exposed faces numbered below j |
| ChunkMesher.CellFacesOrdered | src/chunk.rs:101-117 | one voxel's faces come in strictly increasing face number, at most j of them |
| ChunkMesher.CellFacesAll | src/chunk.rs:101-117 | over all six bits, a voxel emits exactly its exposed faces |
| ChunkMesher.FacesSound | src/chunk.rs:93-121 | every face emitted for the first n voxels is an exposed side of a Stone voxel among them |
| ChunkMesher.FacesComplete | src/chunk.rs:93-121 | every exposed side of a Stone voxel among the first n is emitted |
| ChunkMesher.FacesMembers | src/chunk.rs:93-121 | a face is emitted for the first n voxels iff its voxel is among them, Stone and exposed on that side |
| ChunkMesher.FacesOrdered | src/chunk.rs:93-121 | faces come in voxel-index then face-number order, never twice, at most 6 per voxel |
| ChunkMesher.MeshFacesExactly | src/chunk.rs:89-140 | the mesher emits a face iff its voxel is Stone and the neighbour on that side is an Air cell of the chunk, in index then face order |
| ChunkMesher.AllAirEmitsNothing | src/chunk.rs:93-121 | an all-Air chunk emits no face |
| ChunkMesher.AllAirMeshIsEmpty | src/chunk.rs:89-124 | an all-Air chunk yields an empty mesh |
| ChunkMesher.BoundaryFacesNeverEmitted | src/chunk.rs:126-140 | the true neighbour of every emitted face lies inside the chunk; boundary faces are never emitted, by saturation at 0 and by the bounds check at 16 |
| ChunkMesher.QuadOptions | src/chunk.rs:104-113 | the options passed to `as_mesh` have no contract of their own: QuadLiesOnCellCube states their meaning |
| ChunkMesher.QuadLiesOnCellCube | src/chunk.rs:104-115 | every vertex of a meshed face is half a unit from its voxel's cell on each axis and lies on the side of that unit cube the face names |
| ChunkMesher.QuadsOfWellFormed | src/chunk.rs:108-115 | the mesh of n faces has 4n vertices and 6n indices, each naming an existing vertex |
| ChunkMesher.QuadsOfVertexLayout | src/chunk.rs:108-115 | face k's vertices sit at 4k..4k+4 and are `as_mesh` of that face with base index 4k |
| ChunkMesher.QuadsOfIndexLayout | src/chunk.rs:108-115 | face k's indices sit at 6k..6k+6 and are the two triangles over vertices 4k..4k+3 |
| ChunkMesher.QuadsOfLayout | src/chunk.rs:108-115 | both layouts together: every quad's base index is the vertex count before it |
| ChunkMesher.MeshIsWellFormedAndFitsU32 | src/chunk.rs:112 | a chunk mesh is drawable, and its vertex count stays below u32::MAX, so `vertices.len() as u32` never truncates |
| ChunkMesher.AppendExposedQuads | src/chunk.rs:95-118 | the Stone arm appends the quads of exactly the voxel's exposed faces, in face order |
| ChunkMesher.MeshChunk | src/chunk.rs:89-124 | `mesh` returns exactly the quads of `MeshFaces(voxels)`, in emission order |
| ChunkMesh.GetNormal | src/chunk/mesh.rs:17-32 | the normal is the unit vector along the axis, + for Positive and − for Negative |
| ChunkMesh.FanIndices | src/chunk/mesh.rs:101-108 | six indices in [s, s+4): triangles (s, s+1, s+2) and (s, s+2, s+3) |
| ChunkMesh.QuadVertices | src/chunk/mesh.rs:79-100 | four vertices, the given corners in order, sharing one normal and one colour |
| ChunkMesh.FaceCorners | src/chunk/mesh.rs:121-162 | the corner table of `add_face` has four corners |
| ChunkMesh.FaceCornersSpanRectangle | src/chunk/mesh.rs:121-162 | the corners keep the position on the face axis and are exactly the four corners of the size.x-by-size.y rectangle (X: y,z; Y: x,z; Z: x,y) |
| ChunkMesh.NegativeFaceReversesPositive | src/chunk/mesh.rs:121-162 | for every axis the Negative corner list is the Positive one in reversed cyclic order |
| ChunkMesh.WindingAcrossX | src/chunk/mesh.rs:122-134 | both triangles of an X face wind −size.x·size.y about its normal |
| ChunkMesh.WindingAcrossY | src/chunk/mesh.rs:135-147 | both triangles of a Y face wind −size.x·size.y about its normal |
| ChunkMesh.WindingAcrossZ | src/chunk/mesh.rs:149-161 | both triangles of a Z face wind −size.x·size.y about its normal |
| ChunkMesh.FaceWindingAgreesWithNormal | src/chunk/mesh.rs:121-171 | for all six faces, both triangles wind the same way relative to the face's own normal |
| ChunkMesh.Mesh.constructor | src/chunk/mesh.rs:47-52 | a new mesh has no vertices and no indices |
| ChunkMesh.Mesh.AddQuad | src/chunk/mesh.rs:72-109 | appends exactly the four vertices and the six fan indices from the old vertex count; existing entries are unchanged and well-formedness is kept |
| ChunkMesh.Mesh.AddFace | src/chunk/mesh.rs:111-172 | appends the quad of the face's corner table with normal `get_normal(direction)` |
| Generator.FillColumn | src/generator.rs:43-47 | one column turns exactly its cells below the sampled height to Stone, extending the loop-nest invariant to the next column |
| Generator.GenerateChunk | src/generator.rs:27-51 | the chunk has the unscaled position; only Air and Stone; every filled cell is Stone; every Stone voxel is a filled cell's slot |
| Generator.GeneratedCellIsStoneIffBelowHeight | src/generator.rs:27-51 | a cell reads Stone iff position.y + y < height(position.x + x, position.z + z), and Air otherwise |
| Generator.GeneratedColumnsAreContiguous | src/generator.rs:43-47 | Stone in a column is a run from y = 0 upwards |
| Generator.GeneratedColumnDependsOnlyOnItsHeight | src/generator.rs:30-42 | a column's voxels depend only on the height sampled at (position.x + x, position.z + z) |
| Generation.AsI32 | src/generation.rs:274 | `u32 as i32` keeps the value modulo 2^32 |
| Generation.SaturatingSubI32 | src/generation.rs:274 | `i32::saturating_sub` is the exact difference when it fits, else clamped to the i32 range |
| Generation.GlobalY | src/generation.rs:261 | when the end layers of the chunk fit in an i32, every layer's world height fits in an i32 |
| Generation.Column | src/generation.rs:250-258 | the sampled world column divides by the chunk size back into the grid position and the local column, so each world column belongs to exactly one chunk column |
| Generation.Classify | src/generation.rs:264-289 | never Air; solid iff at or below the terrain height; Water iff above the terrain and at or below sea level; unwritten iff above both |
| Generation.SurfaceIsSandOrGrass | src/generation.rs:264-272 | the surface cell is Sand at or below sea level, else Grass |
| Generation.BandUnderSurfaceIsSandOrDirt | src/generation.rs:273-284 | the dirt band under the surface is Sand at or below sea level, else Dirt |
| Generation.BelowBandIsStone | src/generation.rs:285-286 | everything deeper than the dirt band is Stone |
| Generation.WrappedThicknessLeavesNoBand | src/generation.rs:273-276 | a thickness of 2^31 or more wraps negative in the cast, so no band forms and every cell under the surface is Stone |
| Generation.Chunk.constructor | src/generation.rs:249 | an all-Air chunk of the given grid position and size |
| Generation.Chunk.SetVoxel | src/generation.rs:265-266 | replaces exactly the in-bounds cell's voxel; out-of-bounds writes change nothing |
| Generation.FillColumn | src/generation.rs:260-290 | one column gets the classified voxel in every layer, with global_y = sy·grid.y + y, and other cells are untouched |
| Generation.GenerateChunk | src/generation.rs:246-295 | every in-bounds cell holds the voxel the layering rule gives for its world height and for its column's terrain height (sampled at grid·size + local x, z), or Air if nothing is written |
| AppUtils.Pushed | crates/app/src/utils.rs:16-21 | one more element (none more when full); the last is the pushed value and the others are the old ones in order, minus the oldest when full |
| AppUtils.PushedWithinBound | crates/app/src/utils.rs:16-21 | pushing keeps the length within a positive bound, and leaves earlier items untouched when not full |
| AppUtils.PushedAllKeepsNewest | crates/app/src/utils.rs:16-21 | after any sequence of pushes the queue holds exactly the newest max_size values, oldest first |
| AppUtils.Queue.constructor | crates/app/src/utils.rs:12-14 | a new queue is empty with the given bound |
| AppUtils.Queue.Push | crates/app/src/utils.rs:16-21 | `push` leaves exactly `Pushed(old items, max, value)` and keeps the bound (the copy at src/app.rs:619-624 is the same code) |
| AppFrames.SaturatingSub | src/app.rs:583 | `Duration::saturating_sub` is the exact difference when it is not negative, else zero |
| AppFrames.AsMillis | src/app.rs:585-588 | the logged value is the whole number of milliseconds in the duration |
| AppFrames.NextFrame | crates/app/src/lib.rs:176-178 | the next slot is below the ring length and is current+1, wrapping to 0 after the last |
| AppFrames.NextFrameNIsModular | src/app.rs:514-516 | n advances from slot c land on (c + n) mod len |
| AppFrames.RingReturnsAndCoversAllSlots | src/app.rs:514-516 | after len advances the ring is back at its start, and every slot is reached in fewer |
| AppFrames.InFlightFrames.constructor | crates/app/src/lib.rs:150-174 | one slot per set of handles, no textures to free, starting at slot 0 |
| AppFrames.InFlightFrames.Next | crates/app/src/lib.rs:176-178 | the slots are unchanged and the current slot advances modulo the ring length, staying in range |
| AppFrames.InFlightFrames.Current | src/app.rs:518-532 | every accessor reads a slot that exists |
| AppFrames.InFlightFrames.SetGuiTexturesToFree | crates/app/src/lib.rs:200-202 | replaces only the current slot's texture list; every other slot is untouched |
| AppFrames.GpuFrameTime | src/app.rs:534-539 | the GPU time is the timestamp difference, or zero when the second is earlier |
| AppFrames.Advance | src/app.rs:590-598 | one tick conserves time and frames: a rollover takes exactly one second off the timer and publishes the frame count (this frame included) as the FPS, resetting the count; otherwise the FPS is kept |
| AppFrames.AdvanceKeepsTimerWithinOneSecond | src/app.rs:592-598 | with frames of at most a second, the FPS timer never exceeds one second after a tick |
| AppFrames.AdvanceAllConserves | src/app.rs:590-598 | over any run of ticks no time and no frame is lost: rollovers account for whole seconds and every frame is counted once |
| AppFrames.FrameStats.constructor | src/app.rs:560-576 | all durations and counters zero, three fresh empty logs |
| AppFrames.FrameStats.Tick | src/app.rs:582-599 | cpu = previous − gpu (saturating); one millisecond entry pushed on each bounded log; total +1; FPS state advanced with rollover (the copy at crates/app/src/lib.rs:252-269 is the same code) |
| AppFrames.FrameStats.SetFrameTime | crates/app/src/lib.rs:271-274 | the old frame time becomes the previous frame time; nothing else changes |
| AppFrames.FrameStats.SetGpuTimeTime | src/app.rs:606-608 | only the GPU time changes |
| AppFrames.StatsDisplayMode.Next | crates/app/src/lib.rs:288-296 | `next` always changes the mode |
| AppFrames.NextCyclesThroughAllModes | crates/app/src/lib.rs:288-296 | three steps are the identity, and the three modes reached from any mode are exactly None, Basic and Full |
| AppFrames.OnKeyboardInput | crates/app/src/lib.rs:84-92 | the overlay changes iff the event is an F3 press, and then by one `next` |
| AppFrames.ThreeF3PressesRestoreMode | crates/app/src/lib.rs:84-92 | three F3 presses restore the starting overlay |

## Left out

- Vulkan, glium and winit plumbing, GPU upload and drawing, the UI, the camera and transform maths. These are foreign calls, I/O and floating point.
- Noise-based terrain. `perlin_2d`, the noise module chains and the float `remap` of heights and sea level become input functions and values: `height`, `terrainHeight`, `seaLevelVoxels`.
- The timestamp query read (`wait_for_all_results`) and its error path. The two timestamps are a parameter of `GpuFrameTime`.
- The two-argument neighbour-aware `ChunkMesher::mesh` and its greedy merger, and the background streaming in src/world.rs. Their code is not part of this model.
- `index_to_coord`: its source is not part of this model. It is defined as the inverse of `coord_to_index` on in-bounds indices.
- The generation chunk: its `Chunk::new(grid_position, size)` and `set_voxel` are not part of this model. It is a small class whose `SetVoxel` ignores out-of-bounds cells. Every write `generate_chunk` makes is in bounds, so the choice does not affect `Generation.GenerateChunk`.
- Float positions and colours are `real`, so the model is exact where the source rounds: `u32 as f32` cannot represent every integer above 2^24, so a chunk position that large is rounded when src/chunk.rs:27 builds the transform (it is reached from src/generator.rs:28).
- The logs store whole milliseconds. The final `as f32` conversion of each log entry is left out.
- The getters that only return a field, such as `Chunk::transform` and `gui_textures_to_free`, are not modelled separately. `Chunks.Chunk` exposes `transform` as a field, and `InFlightFrames.Current` covers the slot accessors.
- `PerFrame` in src/app.rs has no texture list. `Queue`, `InFlightFrames` and `FrameStats` are modelled once for both copies, and the rows cite both copies.
- Generator.GenerateChunk: it does not model u32 overflow of `position.x + x`, `position.y + y` or `position.z + z`. Coordinates are unbounded naturals.
- Generator.GeneratedCellIsStoneIffBelowHeight: stated only when the configured chunk size is at most 16 on each axis. A larger size makes flat indices alias, as the `set_voxel` lemmas in `Chunks` show.
- Generator.GeneratedColumnsAreContiguous: under the same size condition, for the same reason.
- Generator.GeneratedColumnDependsOnlyOnItsHeight: under the same size condition, for the same reason.
- Generation.GenerateChunk: it requires every layer's `global_y` to fit in an i32, because the source's i32 arithmetic would overflow otherwise. The noise-sample x and z are unbounded integers, with no i32 or f64 limit.
- AppFrames.FrameStats.Tick: the u32 counters `total_frame_count` and `frame_count` are unbounded, and their overflow is not modelled.
- ChunkMesh.Mesh.AddQuad: does not model the u32 index width. `vertices.len() as u32` truncates once a mesh holds 2^32 vertices, and `start_index + 3` can overflow; indices are unbounded naturals.
- ChunkMesh.Mesh.AddFace: inherits the unmodelled u32 index width of AddQuad.
- Quad.AsMesh: the u32 overflow of `base_index + 3` is not modelled. `ChunkMesher.MeshIsWellFormedAndFitsU32` shows the mesher's calls stay in range.
- AppUtils.Queue.Push: its requires excludes pushing onto a queue of bound 0. There the queue is full while empty, and `remove(0)` on the empty vector panics; the panic is not modelled.
- AppFrames.InFlightFrames.Next: the ring must not be empty. The source divides by zero on an empty ring.
