/** The world's smallest terrain unit (src/world/voxel.rs): a single occupied/empty flag. */
module Voxels {

  datatype Voxel = Voxel(active: bool)

  /** `Voxel::active()`: an occupied voxel. */
  function Active(): (v: Voxel)
    ensures v.active
  {
    Voxel(true)
  }

  /** `Voxel::inactive()`: an empty voxel. */
  function Inactive(): (v: Voxel)
    ensures !v.active
  {
    Voxel(false)
  }

  /** A voxel's whole state is its flag: voxels with equal flags are the same value. */
  lemma FlagDeterminesVoxel(v: Voxel, w: Voxel)
    ensures v == w <==> v.active == w.active
    ensures v.active ==> v == Active()
    ensures !v.active ==> v == Inactive()
  {
  }
}
