# Voxel world model

A Dafny model of the world core of `svep`, a voxel renderer written in Rust.
It covers five parts of that core:

- the dense `SIZE x SIZE x SIZE` container `Volume` and its two iterators;
- the one-flag `Voxel`;
- 32-cubed `Chunk`s and the face-culling mesher `Chunk::create_mesh`;
- the noise-thresholding chunk generator `ChunkManager::generate_new`;
- the constructor of the earlier prototype chunk in `src/chunks.rs`.

Files:

- `wrappers.dfy`: the `Option` type.
- `voxel.dfy`, module `Voxels`: `Voxel`, with `active()` and `inactive()`.
- `volume.dfy`, module `Volumes`:
  - the `Volume` class holds a `const cells: array3<T>`. `index_mut` writes a cell in place;
  - `VolumeIterator` and `VolumeIndexIterator` advance their cursor field by field, as the source does;
  - both iterators are specified through the traversal rank `Rank(size, (x, y, z)) = x + size*(y + size*z)` and its inverse `IdxAt`;
  - the loops of the in-file unit tests are modelled too.
- `chunk.dfy`, module `WorldChunks`:
  - the chunk, the face table, the mesh and `NeighborIterator`;
  - the functions that define the drawn faces (`Faces`) and the mesh built from them (`MeshOf`);
  - the imperative `CreateMesh`, proved to build exactly `MeshOf(table, Faces(vol))`;
  - `example_chunk` and `random_chunk`.
- `example_chunk.dfy`, module `ExampleChunks`: the mesh of the example chunk has 14 faces and 84 indices.
- `manager.dfy`, module `ChunkManagers`: `ChunkManager::default` and `generate_new`.
- `prototype_chunks.dfy`, module `PrototypeChunks`: the prototype `Voxel` constructors, and `Chunk::new`, which rewrites the `chunk` tag of every present voxel in place.

Modelling choices:

- **Mesh vertex positions.** A vertex position is the voxel index paired with the face-table offset, rather than the `f32` sum of the two.
- **Face table.** The table (`PY_FACE` ... `NX_FACE`) is a parameter. `QuadTable` states that every entry has four vertices.
- **Random draws.** The `rand::random` draws of `random_chunk` are a parameter `draw: nat -> real`, where `draw(k)` is the k-th call.
- **Noise.** The noise library and the `f64` coordinate scaling of `generate_new` are the manager's field `noisegen: (ChunkPosition, Idx) -> real`.
- **Chunk positions.** `ChunkPosition` is a triple of unbounded integers.
- **`usize` and `u32`.** Indices and counters are `nat`. `IndicesFitU32` shows that the `u32` index counter of `create_mesh` cannot wrap within one chunk.

Facts about the code that shape the model:

- **Boundary faces.** No face on the chunk boundary is ever drawn, because out-of-range neighbours are never produced. Faces are decided from the chunk's own volume only.
- **`generate_new` start and comparison.** `generate_new` starts from an all-inactive volume and activates a voxel when its sample is strictly above 0.33.
- **`ChunkPosition` shape.** `src/world/chunk.rs` declares it as a `u32` tuple, while `src/world/manager.rs` reads `.x` fields from it. An integer triple serves both uses.
- **The chunk registry.** The registry consists of two vectors, and `generate_new` leaves both unchanged because its push is commented out.
- **Chunk mesh contents.** A chunk mesh holds four lists: vertices, normals, uvs and indices.
- **`Chunk::new` (world).** `Chunk::new` of the world chunk is not defined in `src/world/chunk.rs`. `NewChunk` scans the volume once and sets `empty` iff no voxel is active, which agrees with how `random_chunk` keeps the flag.

## Model

| member | source | states |
|---|---|---|
| Voxels.Active | src/world/voxel.rs:7-9 | the voxel is active |
| Voxels.Inactive | src/world/voxel.rs:11-13 | the voxel is inactive |
| Voxels.FlagDeterminesVoxel | src/world/voxel.rs:1-14 | two voxels are equal iff their flags are; every voxel is `active()` or `inactive()` |
| Volumes.Rank | src/util/volume.rs:91-100 | the traversal position of an in-range cell is below SIZE^3 |
| Volumes.IdxAt | src/util/volume.rs:91-100 | the cell at traversal step k < SIZE^3 is in range and has rank k |
| Volumes.IdxAtRank | src/util/volume.rs:106-128 | rank and cell-at-step are inverse on in-range cells |
| Volumes.IdxAtRankAll | src/util/volume.rs:106-128 | the same, for all in-range cells at once |
| Volumes.VisitedExactlyOnce | src/util/volume.rs:106-128 | step k visits cell i iff k is the rank of i, so each cell is visited exactly once |
| Volumes.RankSingles | src/util/volume.rs:106-128 | the cell visited at step k is the only in-range cell of rank k |
| Volumes.RankOrder | src/util/volume.rs:115-124 | traversal order is lexicographic on (z, y, x): x fastest, then y, then z |
| Volumes.CursorPosition | src/util/volume.rs:84-86 | the cursor's z has reached SIZE iff SIZE^3 steps were taken; before that the cursor is the cell at its step |
| Volumes.AdvanceRank | src/util/volume.rs:91-100 | each branch of the field-by-field advance moves the rank forward by exactly one |
| Volumes.Volume.Filled | src/util/volume.rs:56-58 | every in-range cell holds `item` |
| Volumes.Volume.FromNested | src/util/volume.rs:43-47 | the volume holds `arr[x][y][z]` at (x, y, z), and converting back yields `arr` |
| Volumes.Volume.ToNested | src/util/volume.rs:49-53 | the array is a cube of side SIZE that holds cell (x, y, z) at `[x][y][z]` |
| Volumes.NestedExtensional | src/util/volume.rs:43-53 | two cubes that agree on every cell are equal, so the two conversions are inverse |
| Volumes.Volume.Set | src/util/volume.rs:30-35 | after the write, the written cell reads back `v` and every other cell is unchanged |
| Volumes.Volume.Index | src/util/volume.rs:21-28 | on an in-range index, the unchecked read returns the value the checked read `get` wraps in `Some` |
| Volumes.Volume.Get | src/util/volume.rs:71-77 | `None` iff some coordinate is at least SIZE; otherwise `Some` of the cell at (x, y, z) |
| Volumes.Volume.Iter | src/util/volume.rs:60-65 | a fresh item iterator over this volume, at step 0 |
| Volumes.Volume.IterIndices | src/util/volume.rs:67-69 | a fresh index iterator for this size, at step 0 |
| Volumes.VolumeIterator.constructor | src/util/volume.rs:60-65 | the cursor starts at (0, 0, 0) |
| Volumes.VolumeIterator.Next | src/util/volume.rs:80-104 | before exhaustion: yields the cell at the current step with its item and advances one step; after: `None`, state unchanged |
| Volumes.VolumeIndexIterator.constructor | src/util/volume.rs:67-69 | the cursor starts at (0, 0, 0) |
| Volumes.VolumeIndexIterator.Next | src/util/volume.rs:106-128 | before exhaustion: yields the cell at the current step and advances one step; after: `None`, state unchanged |
| Volumes.CollectIndices | src/util/volume.rs:106-128 | `iter_indices` run to exhaustion yields SIZE^3 indices, the k-th being the cell at step k |
| Volumes.CollectItems | src/util/volume.rs:149-171 | `iter` yields SIZE^3 (index, item) pairs in the same order as `iter_indices`, each item being the cell's content |
| Volumes.IterIndicesOfSizeTwo | src/util/volume.rs:203-222 | a 2x2x2 traversal yields exactly the eight indices listed in the test, in that order |
| Volumes.DoubleTwelves | src/util/volume.rs:173-201 | the loop doubles exactly the cells that held 12 and leaves every other cell unchanged |
| WorldChunks.GetFaceMesh | src/world/chunk.rs:160-178 | each direction takes the face-table entry on the side its unit offset points to |
| WorldChunks.EmptyMesh | src/world/chunk.rs:24-33 | all four lists are empty |
| WorldChunks.MeshLengths | src/world/chunk.rs:125-138 | a mesh of n faces has 6n indices and as many normals and uvs as vertices |
| WorldChunks.NeighborSlots | src/world/chunk.rs:207-223 | six slots in order East, West, Up, Down, South, North; slot j holds the neighbour in direction j iff it lies in the chunk |
| WorldChunks.Neighbors | src/world/chunk.rs:226-239 | every neighbour listed for an in-range voxel is in range |
| WorldChunks.NeighborsInOrder | src/world/chunk.rs:207-223 | the neighbours yielded are exactly the in-chunk ones, in the fixed direction order |
| WorldChunks.NeighborMembership | src/world/chunk.rs:210-217 | (d, n) is yielded iff the step towards d stays in the chunk and lands on n |
| WorldChunks.NeighborsAdjacent | src/world/chunk.rs:210-217 | each yielded neighbour is in range and differs by exactly 1 in exactly one coordinate |
| WorldChunks.NeighborCount | src/world/chunk.rs:210-217 | the neighbour count is the sum over the axes of in-chunk sides: 6 for an interior voxel, 3 for a corner |
| WorldChunks.NeighborIterator.FromIdx | src/world/chunk.rs:207-223 | the slots are those of the voxel and the cursor is at 0 |
| WorldChunks.NeighborIterator.Next | src/world/chunk.rs:226-239 | yields the next present slot and extends the yielded list by it; `None` only once all six slots were passed, then forever |
| WorldChunks.VisibleFaces | src/world/chunk.rs:118-121 | a voxel shows at most one face per neighbour |
| WorldChunks.FacesUpTo | src/world/chunk.rs:114-121 | the first k voxels show at most 6k faces |
| WorldChunks.VisibleFacesMembership | src/world/chunk.rs:118-121 | a face is shown towards a neighbour list iff one of those neighbours in its direction is inactive |
| WorldChunks.FacesUpToMembership | src/world/chunk.rs:114-121 | a face is emitted among the first k voxels iff it is shown and its voxel's rank is below k |
| WorldChunks.FaceEmittedIff | src/world/chunk.rs:114-121 | a face is drawn iff its voxel is active and its neighbour lies in the chunk and is inactive |
| WorldChunks.BoundaryFacesOmitted | src/world/chunk.rs:210-217 | a face whose neighbour would lie outside the chunk is never drawn |
| WorldChunks.FacesGap | src/world/chunk.rs:114-115 | a stretch of inactive voxels adds no faces |
| WorldChunks.InactiveChunkHasNoFaces | src/world/chunk.rs:110-146 | an all-inactive chunk has no faces and an empty mesh |
| WorldChunks.NeighborsDistinct | src/world/chunk.rs:207-223 | no two neighbours yielded for a voxel share a direction |
| WorldChunks.VisibleFacesDistinct | src/world/chunk.rs:118-121 | a voxel's faces towards a list of neighbours in distinct directions are pairwise different |
| WorldChunks.FacesUpToDistinct | src/world/chunk.rs:114-139 | the faces emitted for the first k voxels are pairwise different |
| WorldChunks.FacesOnce | src/world/chunk.rs:114-139 | no face is drawn twice: the drawn faces are pairwise different |
| WorldChunks.FaceCount | src/world/chunk.rs:114-139 | the first k voxels of the traversal emit exactly as many faces as their active voxels have exposed sides |
| WorldChunks.FaceCountBound | src/world/chunk.rs:114-121 | a chunk shows at most 6 x 32^3 faces |
| WorldChunks.QuadsIndices | src/world/chunk.rs:135-138 | n quads give 6n indices |
| WorldChunks.MeshIndicesAre | src/world/chunk.rs:135-138 | a mesh's index list depends only on its number of faces |
| WorldChunks.MeshIndicesAt | src/world/chunk.rs:135-138 | the k-th quad's six indices are 4k + [0, 1, 2, 2, 3, 0] |
| WorldChunks.MeshVertexCount | src/world/chunk.rs:125-134 | with a quad face table, n faces give 4n vertices |
| WorldChunks.MeshWellFormed | src/world/chunk.rs:125-138 | with a quad face table, indices are 1.5 times the vertices and every index names an existing vertex |
| WorldChunks.IndicesFitU32 | src/world/chunk.rs:112-138 | every index of a chunk mesh is below 2^32 |
| WorldChunks.AppendFace | src/world/chunk.rs:125-138 | the vertex and index loops append the face's placed vertices, normals, uvs and its six offset indices |
| WorldChunks.DrawFace | src/world/chunk.rs:125-138 | the mesh of `faces` becomes the mesh of `faces` plus the new face |
| WorldChunks.EmitVoxelFaces | src/world/chunk.rs:118-140 | the neighbour loop appends the quads of the voxel's faces towards inactive neighbours, in order, and advances the counter by 4 each |
| WorldChunks.DrawVoxel | src/world/chunk.rs:116-140 | one active voxel appends the quads of its visible faces |
| WorldChunks.CreateMesh | src/world/chunk.rs:110-146 | the mesh is exactly the mesh of the drawn faces, in traversal order and then neighbour order |
| WorldChunks.ExposedFaces | src/world/chunk.rs:118-121 | a voxel shows exactly as many faces as it has in-chunk inactive neighbours |
| WorldChunks.NewChunk | src/world/manager.rs:44 | keeps the position and volume; `empty` iff no voxel is active |
| WorldChunks.ExampleChunk | src/world/chunk.rs:78-90 | position (1, 0, 0), not empty, and active exactly at (5, 4, 5), (5, 5, 5) and (5, 6, 5) |
| WorldChunks.RandomChunk | src/world/chunk.rs:92-108 | a voxel is active iff its step's draw exceeds 0.075; `empty` iff no voxel is active |
| ExampleChunks.ExampleFaceCount | src/world/chunk.rs:78-90 | the example column shows 14 faces (5 + 4 + 5) |
| ExampleChunks.ExampleMesh | src/world/chunk.rs:78-90 | meshing the example chunk gives 84 indices, equal vertex, normal and uv counts, and 56 vertices with a quad face table |
| ChunkManagers.ChunkManager.Default | src/world/manager.rs:18-26 | no chunks and no visible chunks |
| ChunkManagers.ChunkManager.GenerateNew | src/world/manager.rs:29-45 | a voxel is active iff its sample is strictly above 0.33; the chunk has the given position, `empty` iff nothing is active; the registry is unchanged |
| PrototypeChunks.NewVoxel | src/chunks.rs:17-22 | stores the position and the chunk tag as given |
| PrototypeChunks.NewAnonVoxel | src/chunks.rs:24-29 | the same as `new` with the chunk tag at the origin |
| PrototypeChunks.TagCell | src/chunks.rs:52-55 | an absent entry stays absent; a present voxel keeps its position and gets the chunk's tag |
| PrototypeChunks.Retag | src/chunks.rs:49-58 | the same ragged shape, and each entry is tagged as `TagCell` says |
| PrototypeChunks.RetagIdempotent | src/chunks.rs:49-58 | re-tagging with the same coordinates changes nothing |
| PrototypeChunks.RetagOverrides | src/chunks.rs:49-58 | tagging twice is the same as tagging with the later coordinates only |
| PrototypeChunks.NewChunk | src/chunks.rs:46-64 | the chunk has the given position and the re-tagged grid |

## Left out

- Rendering, windowing, asset loading, camera math and the ECS systems: these are graphics plumbing and floating-point code outside the world core.
- `impl Into<Mesh> for ChunkMesh`: a conversion into a rendering-engine type.
- The face table contents (`PY_FACE` ... `NX_FACE`) are not part of this model. The table is a parameter, and only its shape (four vertices per entry) is assumed where stated.
- Floating point: vertex positions keep the voxel index and the face offset apart rather than adding them as `f32`; the prototype's `f32` coordinates are reals, since they are only copied.
- `rand::random` and the noise library are parameters, so randomness and the exact noise values are not modelled.
- The `Debug` formatting of `Volume` is display-only.
- `chunks::Chunk::id`: an `f32` to `i32` cast.
- Concurrency: no parallel pipeline, lock or cross-chunk lookup exists in the modelled code.
- `ChunkMesh` indices are unbounded naturals rather than `u32`; `IndicesFitU32` shows no wrap-around can occur.
- `Volumes.Volume.Index` requires an in-range index. The Rust indexing panics on an out-of-range index, and the panic is not modelled.
- `Volumes.Volume.Set` requires an in-range index. The Rust indexing panics on an out-of-range index, and the panic is not modelled.
- `WorldChunks.NewChunk`: the body of the world `Chunk::new` is not defined in `src/world/chunk.rs`; the model assumes it computes `empty` by one scan of the volume (true iff no voxel is active). The `empty` clause of `ChunkManagers.ChunkManager.GenerateNew` rests on that assumption.
- Ownership: a `Chunk` holds a reference to its `Volume` object, and `WorldChunks.NewChunk` keeps the caller's reference, so the caller and the chunk share one volume. The Rust `Chunk` owns its volume outright; the model does not state that no other reference to the volume exists.
