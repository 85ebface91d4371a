/**
 * The chunk manager (src/world/manager.rs): generates the voxels of a chunk
 * by thresholding a noise field sampled once per voxel.
 */
module ChunkManagers {
  import opened Wrappers
  import opened Volumes
  import opened Voxels
  import opened WorldChunks

  /** A voxel is active iff its noise sample is strictly above this value. */
  const PERLIN_THRESHOLD: real := 0.33

  /**
   * The noise field as seen from one chunk: the sample taken for the voxel at
   * an index of the chunk at a position. The coordinate scaling and the noise
   * library are folded into this one function.
   */
  type NoiseField = (ChunkPosition, Idx) -> real

  /** The voxel a noise sample selects. */
  predicate Selected(noise: NoiseField, pos: ChunkPosition, i: Idx) {
    noise(pos, i) > PERLIN_THRESHOLD
  }

  class ChunkManager {
    var chunks: seq<Chunk>
    var visibleChunks: seq<ChunkPosition>
    const noisegen: NoiseField

    /** `ChunkManager::default`: no chunks, none of them visible. */
    constructor Default(noisegen: NoiseField)
      ensures chunks == [] && visibleChunks == [] && this.noisegen == noisegen
    {
      chunks := [];
      visibleChunks := [];
      this.noisegen := noisegen;
    }

    /**
     * `ChunkManager::generate_new`: starts from an all-inactive volume, visits
     * every index once and activates exactly the voxels whose sample is above
     * the threshold. The registry is left as it was.
     */
    method GenerateNew(pos: ChunkPosition) returns (c: Chunk)
      ensures c.position == pos && ChunkVolume(c.volume) && fresh(c.volume.cells)
      ensures forall i: Idx :: InBounds(CHUNK_SIZE, i) ==>
                (c.volume.Index(i).active <==> Selected(noisegen, pos, i))
      ensures c.empty <==> NoneActive(c.volume)
      ensures chunks == old(chunks) && visibleChunks == old(visibleChunks)
    {
      var vol := new Volume<Voxel>.Filled(CHUNK_SIZE, Inactive());
      var it := vol.IterIndices();
      ghost var step: nat := 0;
      while true
        invariant it.Valid() && it.size == CHUNK_SIZE && step == it.Position() <= Total(CHUNK_SIZE)
        invariant ChunkVolume(vol) && fresh(vol.cells)
        invariant forall i: Idx :: InBounds(CHUNK_SIZE, i) ==>
                    (vol.Index(i).active <==> Rank(CHUNK_SIZE, i) < step && Selected(noisegen, pos, i))
        decreases Total(CHUNK_SIZE) - step
      {
        var next := it.Next();
        if next == None {
          break;
        }
        var idx := next.value;
        RankSingles(CHUNK_SIZE, idx, step);
        var noise := noisegen(pos, idx);
        if noise > PERLIN_THRESHOLD {
          vol.Set(idx, vol.Index(idx).(active := true));
        }
        step := step + 1;
      }
      c := NewChunk(pos, vol);
    }
  }
}
