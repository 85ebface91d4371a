/**
 * The earlier chunk prototype (src/chunks.rs): a chunk owns a ragged nested
 * grid of optional voxels, and building the chunk tags every present voxel
 * with the chunk's coordinates.
 */
module PrototypeChunks {
  import opened Wrappers

  /**
   * Coordinates are `f32` triples in the source; they are only copied, never
   * computed on, so any value type serves.
   */
  type Coords = (real, real, real)

  const ORIGIN: Coords := (0.0, 0.0, 0.0)

  datatype Voxel = Voxel(pos: Coords, chunk: Coords)

  type Line = seq<Option<Voxel>>
  type Plane = seq<Line>
  type Grid = seq<Plane>

  datatype Chunk = Chunk(pos: Coords, voxels: Grid)

  /** `Voxel::new`: stores both coordinates as given. */
  function NewVoxel(pos: Coords, chunk: Coords): (v: Voxel)
    ensures v.pos == pos && v.chunk == chunk
  {
    Voxel(pos, chunk)
  }

  /** `Voxel::new_anon`: a voxel that belongs to no chunk yet, tagged with the origin. */
  function NewAnonVoxel(pos: Coords): (v: Voxel)
    ensures v == NewVoxel(pos, ORIGIN)
  {
    Voxel(pos, (0.0, 0.0, 0.0))
  }

  /** What `Chunk::new` does to one entry: a present voxel is re-tagged, an absent one stays absent. */
  function TagCell(pos: Coords, o: Option<Voxel>): (r: Option<Voxel>)
    ensures r.None? <==> o.None?
    ensures o.Some? ==> r.value.pos == o.value.pos && r.value.chunk == pos
  {
    match o
    case None => None
    case Some(v) => Some(v.(chunk := pos))
  }

  function TagLine(pos: Coords, line: Line): Line {
    seq(|line|, k requires 0 <= k < |line| => TagCell(pos, line[k]))
  }

  function TagPlane(pos: Coords, plane: Plane): Plane {
    seq(|plane|, j requires 0 <= j < |plane| => TagLine(pos, plane[j]))
  }

  /**
   * The grid `Chunk::new` leaves behind: the same ragged shape, every absent
   * entry still absent, every present voxel at its old position and tagged
   * with `pos`.
   */
  function Retag(pos: Coords, grid: Grid): (r: Grid)
    ensures SameShape(r, grid)
    ensures forall x, y, z :: 0 <= x < |grid| && 0 <= y < |grid[x]| && 0 <= z < |grid[x][y]| ==>
              r[x][y][z] == TagCell(pos, grid[x][y][z])
  {
    seq(|grid|, i requires 0 <= i < |grid| => TagPlane(pos, grid[i]))
  }

  /** Every outer, middle and inner length agrees. */
  predicate SameShape(a: Grid, b: Grid) {
    |a| == |b| &&
    (forall x :: 0 <= x < |a| ==> |a[x]| == |b[x]|) &&
    (forall x, y :: 0 <= x < |a| && 0 <= y < |a[x]| ==> |a[x][y]| == |b[x][y]|)
  }

  /** Re-tagging with the same coordinates a second time changes nothing. */
  lemma RetagIdempotent(pos: Coords, grid: Grid)
    ensures Retag(pos, Retag(pos, grid)) == Retag(pos, grid)
  {
    var once := Retag(pos, grid);
    var twice := Retag(pos, once);
    forall x | 0 <= x < |grid| ensures twice[x] == once[x] {
      forall y | 0 <= y < |grid[x]| ensures twice[x][y] == once[x][y] {
        assert |twice[x][y]| == |once[x][y]|;
      }
    }
  }

  /** Re-tagging only ever depends on the last coordinates used. */
  lemma RetagOverrides(p: Coords, q: Coords, grid: Grid)
    ensures Retag(q, Retag(p, grid)) == Retag(q, grid)
  {
    var a := Retag(q, Retag(p, grid));
    var b := Retag(q, grid);
    forall x | 0 <= x < |grid| ensures a[x] == b[x] {
      forall y | 0 <= y < |grid[x]| ensures a[x][y] == b[x][y] {
        assert |a[x][y]| == |b[x][y]|;
      }
    }
  }

  /**
   * `Chunk::new`: walks the grid with three nested loops and overwrites the
   * `chunk` field of every present voxel with `pos`, in place.
   */
  method NewChunk(pos: Coords, voxels: Grid) returns (c: Chunk)
    ensures c.pos == pos && c.voxels == Retag(pos, voxels)
  {
    var grid := voxels;
    var x := 0;
    while x < |grid|
      invariant 0 <= x <= |grid| == |voxels|
      invariant forall i :: 0 <= i < x ==> grid[i] == TagPlane(pos, voxels[i])
      invariant forall i :: x <= i < |grid| ==> grid[i] == voxels[i]
    {
      var plane := grid[x];
      var y := 0;
      while y < |plane|
        invariant 0 <= y <= |plane| == |voxels[x]|
        invariant forall j :: 0 <= j < y ==> plane[j] == TagLine(pos, voxels[x][j])
        invariant forall j :: y <= j < |plane| ==> plane[j] == voxels[x][j]
      {
        var line := plane[y];
        var z := 0;
        while z < |line|
          invariant 0 <= z <= |line| == |voxels[x][y]|
          invariant forall k :: 0 <= k < z ==> line[k] == TagCell(pos, voxels[x][y][k])
          invariant forall k :: z <= k < |line| ==> line[k] == voxels[x][y][k]
        {
          match line[z] {
            case Some(vox) =>
              line := line[z := Some(vox.(chunk := pos))];
            case None =>
          }
          z := z + 1;
        }
        plane := plane[y := line];
        y := y + 1;
      }
      grid := grid[x := plane];
      x := x + 1;
    }
    c := Chunk(pos, grid);
  }
}
