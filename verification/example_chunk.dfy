/**
 * The demonstration chunk of src/world/chunk.rs (`Chunk::example_chunk`): a
 * vertical column of three active voxels in an otherwise inactive chunk, and
 * the mesh `create_mesh` draws for it.
 */
module ExampleChunks {
  import opened Volumes
  import opened Voxels
  import opened WorldChunks

  /** The traversal positions of the three column voxels (5,4,5), (5,5,5) and (5,6,5). */
  const LOW: nat := 5253
  const MID: nat := 5285
  const HIGH: nat := 5317

  ghost predicate ColumnVolume(vol: Volume<Voxel>)
    requires ChunkVolume(vol)
    reads vol.cells
  {
    forall i: Idx :: InBounds(CHUNK_SIZE, i) ==> (vol.Index(i).active <==> InExampleColumn(i))
  }

  /** Every voxel of the traversal outside the column positions is inactive. */
  lemma InactiveOffColumn(vol: Volume<Voxel>, k: nat)
    requires ChunkVolume(vol) && ColumnVolume(vol)
    requires k < Total(CHUNK_SIZE) && k != LOW && k != MID && k != HIGH
    ensures !vol.Index(IdxAt(CHUNK_SIZE, k)).active
  {
  }

  /** No face comes from the voxels strictly between two traversal positions off the column. */
  lemma QuietStretch(vol: Volume<Voxel>, a: nat, b: nat)
    requires ChunkVolume(vol) && ColumnVolume(vol) && a <= b <= Total(CHUNK_SIZE)
    requires b <= LOW || (LOW < a && b <= MID) || (MID < a && b <= HIGH) || HIGH < a
    ensures FacesUpTo(vol, b) == FacesUpTo(vol, a)
  {
    forall k | a <= k < b ensures !vol.Index(IdxAt(CHUNK_SIZE, k)).active {
      InactiveOffColumn(vol, k);
    }
    FacesGap(vol, a, b);
  }

  /** The column voxel at traversal position `k` adds its exposed sides as faces. */
  lemma ColumnVoxel(vol: Volume<Voxel>, c: Idx, k: nat)
    requires ChunkVolume(vol) && InBounds(CHUNK_SIZE, c) && k == Rank(CHUNK_SIZE, c) && vol.Index(c).active
    ensures |FacesUpTo(vol, k + 1)| == |FacesUpTo(vol, k)| + Exposed(vol, c)
  {
    IdxAtRank(CHUNK_SIZE, c);
    FacesUpToStep(vol, k);
    ExposedFaces(vol, c);
  }

  /** The lower end of the column shows every side but the top one. */
  lemma LowExposed(vol: Volume<Voxel>)
    requires ChunkVolume(vol) && ColumnVolume(vol)
    ensures vol.Index((5, 4, 5)).active && Exposed(vol, (5, 4, 5)) == 5
  {
    assert vol.Index((5, 5, 5)).active;
    assert !vol.Index((6, 4, 5)).active && !vol.Index((4, 4, 5)).active && !vol.Index((5, 3, 5)).active;
    assert !vol.Index((5, 4, 6)).active && !vol.Index((5, 4, 4)).active;
  }

  /** The middle of the column shows its four horizontal sides. */
  lemma MidExposed(vol: Volume<Voxel>)
    requires ChunkVolume(vol) && ColumnVolume(vol)
    ensures vol.Index((5, 5, 5)).active && Exposed(vol, (5, 5, 5)) == 4
  {
    assert vol.Index((5, 4, 5)).active && vol.Index((5, 6, 5)).active;
    assert !vol.Index((6, 5, 5)).active && !vol.Index((4, 5, 5)).active;
    assert !vol.Index((5, 5, 6)).active && !vol.Index((5, 5, 4)).active;
  }

  /** The upper end of the column shows every side but the bottom one. */
  lemma HighExposed(vol: Volume<Voxel>)
    requires ChunkVolume(vol) && ColumnVolume(vol)
    ensures vol.Index((5, 6, 5)).active && Exposed(vol, (5, 6, 5)) == 5
  {
    assert vol.Index((5, 5, 5)).active;
    assert !vol.Index((6, 6, 5)).active && !vol.Index((4, 6, 5)).active && !vol.Index((5, 7, 5)).active;
    assert !vol.Index((5, 6, 6)).active && !vol.Index((5, 6, 4)).active;
  }

  /**
   * The column's end voxels each show five sides (all but the one facing
   * the middle voxel), and the middle voxel four: 14 faces in all.
   */
  lemma ExampleFaceCount(vol: Volume<Voxel>)
    requires ChunkVolume(vol) && ColumnVolume(vol)
    ensures |Faces(vol)| == 14
  {
    LowExposed(vol);
    MidExposed(vol);
    HighExposed(vol);
    QuietStretch(vol, 0, LOW);
    ColumnVoxel(vol, (5, 4, 5), LOW);
    QuietStretch(vol, LOW + 1, MID);
    ColumnVoxel(vol, (5, 5, 5), MID);
    QuietStretch(vol, MID + 1, HIGH);
    ColumnVoxel(vol, (5, 6, 5), HIGH);
    QuietStretch(vol, HIGH + 1, Total(CHUNK_SIZE));
  }

  /** Meshing `Chunk::example_chunk` yields 14 quads: 56 vertices and 84 indices. */
  method ExampleMesh(table: FaceTable) returns (mesh: ChunkMesh)
    ensures |mesh.indices| == 84
    ensures |mesh.vertices| == |mesh.normals| == |mesh.uvs|
    ensures QuadTable(table) ==> |mesh.vertices| == 56
  {
    var chunk := ExampleChunk();
    mesh := CreateMesh(chunk, table);
    ExampleFaceCount(chunk.volume);
    MeshLengths(table, Faces(chunk.volume));
    if QuadTable(table) {
      MeshWellFormed(table, Faces(chunk.volume));
    }
  }
}
