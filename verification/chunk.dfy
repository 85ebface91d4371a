/**
 * Chunks of the voxel world and their face-culling mesh generation
 * (src/world/chunk.rs).
 *
 * A chunk is a 32 x 32 x 32 volume of voxels. Its mesh holds one quad per
 * (active voxel, direction) pair whose neighbour in that direction lies inside
 * the chunk and is inactive; faces on the chunk boundary are never drawn.
 * `Faces` lists those quads in the order the mesher emits them, and
 * `CreateMesh` is proved to produce `MeshOf(table, Faces(vol))`.
 */
module WorldChunks {
  import opened Wrappers
  import opened Volumes
  import opened Voxels

  const CHUNK_SIZE: nat := 32

  /** A chunk's position in chunk space. */
  type ChunkPosition = (int, int, int)

  /** `Chunk`: its position, the cached `empty` flag and its voxels. */
  datatype Chunk = Chunk(position: ChunkPosition, empty: bool, volume: Volume<Voxel>)

  predicate ChunkVolume(vol: Volume<Voxel>) {
    vol.size == CHUNK_SIZE && vol.Valid()
  }

  ghost predicate NoneActive(vol: Volume<Voxel>)
    requires ChunkVolume(vol)
    reads vol.cells
  {
    forall i: Idx :: InBounds(CHUNK_SIZE, i) ==> !vol.Index(i).active
  }

  // ---------------------------------------------------------------------------
  // Directions and the face table

  /** `Direction`, in the declaration order of the source. */
  datatype Direction = Up | Down | North | East | South | West

  /** The unit step towards the neighbour in each direction. */
  function Offset(d: Direction): (int, int, int) {
    match d
    case East => (1, 0, 0)
    case West => (-1, 0, 0)
    case Up => (0, 1, 0)
    case Down => (0, -1, 0)
    case South => (0, 0, 1)
    case North => (0, 0, -1)
  }

  type Vec3 = (real, real, real)
  type Vec2 = (real, real)

  /** One vertex of a face-table entry: position offset inside the unit cube, normal, texture coordinate. */
  type FaceVertex = (Vec3, Vec3, Vec2)
  type FaceMesh = seq<FaceVertex>

  /** The six per-face vertex lists (`PY_FACE` ... `NX_FACE`); their contents are not part of this model. */
  datatype FaceTable = FaceTable(py: FaceMesh, ny: FaceMesh, nz: FaceMesh, px: FaceMesh, pz: FaceMesh, nx: FaceMesh)

  /** `Direction::get_face_mesh`: the table entry on the side the unit offset of `d` points to. */
  function GetFaceMesh(table: FaceTable, d: Direction): (fm: FaceMesh)
    ensures Offset(d) == (1, 0, 0) ==> fm == table.px
    ensures Offset(d) == (-1, 0, 0) ==> fm == table.nx
    ensures Offset(d) == (0, 1, 0) ==> fm == table.py
    ensures Offset(d) == (0, -1, 0) ==> fm == table.ny
    ensures Offset(d) == (0, 0, 1) ==> fm == table.pz
    ensures Offset(d) == (0, 0, -1) ==> fm == table.nz
  {
    match d
    case Up => table.py
    case Down => table.ny
    case North => table.nz
    case East => table.px
    case South => table.pz
    case West => table.nx
  }

  // ---------------------------------------------------------------------------
  // The mesh

  /** A mesh vertex: the voxel it belongs to, plus the face-table offset added to that voxel's position. */
  datatype MeshVertex = MeshVertex(cell: Idx, offset: Vec3)

  /** `ChunkMesh`: flat vertex, normal, uv and index lists. */
  datatype ChunkMesh = ChunkMesh(vertices: seq<MeshVertex>, normals: seq<Vec3>, uvs: seq<Vec2>, indices: seq<nat>)

  /** `ChunkMesh::empty`. */
  function EmptyMesh(): (m: ChunkMesh)
    ensures |m.vertices| == |m.normals| == |m.uvs| == |m.indices| == 0
  {
    ChunkMesh([], [], [], [])
  }

  /** The two triangles of a quad, as offsets from the quad's first vertex. */
  const QUAD: seq<nat> := [0, 1, 2, 2, 3, 0]

  /** The six indices of a quad whose first vertex is `base`. */
  function QuadIndices(base: nat): seq<nat> {
    [base, base + 1, base + 2, base + 2, base + 3, base]
  }

  /** The face's vertex positions, attached to the voxel at `cell`. */
  function Placed(fm: FaceMesh, cell: Idx): (vs: seq<MeshVertex>)
    ensures |vs| == |fm|
  {
    if fm == [] then [] else Placed(fm[..|fm| - 1], cell) + [MeshVertex(cell, fm[|fm| - 1].0)]
  }

  function NormalsOf(fm: FaceMesh): (ns: seq<Vec3>)
    ensures |ns| == |fm|
  {
    if fm == [] then [] else NormalsOf(fm[..|fm| - 1]) + [fm[|fm| - 1].1]
  }

  function UvsOf(fm: FaceMesh): (us: seq<Vec2>)
    ensures |us| == |fm|
  {
    if fm == [] then [] else UvsOf(fm[..|fm| - 1]) + [fm[|fm| - 1].2]
  }

  /** `m` with one more quad: the face vertices placed at `cell`, and six indices offset by `base`. */
  function AddQuad(m: ChunkMesh, fm: FaceMesh, cell: Idx, base: nat): ChunkMesh {
    ChunkMesh(m.vertices + Placed(fm, cell), m.normals + NormalsOf(fm), m.uvs + UvsOf(fm),
              m.indices + QuadIndices(base))
  }

  /** A face of a voxel: the voxel and the direction the face looks towards. */
  datatype Face = Face(cell: Idx, dir: Direction)

  /** The mesh holding one quad per face in `faces`, in that order; quad k uses vertices 4k .. 4k + 3. */
  function MeshOf(table: FaceTable, faces: seq<Face>): ChunkMesh
  {
    if faces == [] then EmptyMesh()
    else
      var f := faces[|faces| - 1];
      AddQuad(MeshOf(table, faces[..|faces| - 1]), GetFaceMesh(table, f.dir), f.cell, 4 * (|faces| - 1))
  }

  /** Six indices per face, and one normal and one uv per vertex. */
  lemma {:induction false} MeshLengths(table: FaceTable, faces: seq<Face>)
    ensures |MeshOf(table, faces).indices| == 6 * |faces|
    ensures |MeshOf(table, faces).vertices| == |MeshOf(table, faces).normals| == |MeshOf(table, faces).uvs|
  {
    if faces != [] {
      MeshLengths(table, faces[..|faces| - 1]);
    }
  }

  // ---------------------------------------------------------------------------
  // Face neighbours

  /** The order in which neighbours are listed. */
  const DirectionOrder: seq<Direction> := [East, West, Up, Down, South, North]

  /** The position one step from `i` in direction `d`; it may lie outside the chunk. */
  function Step(i: Idx, d: Direction): (int, int, int) {
    (i.0 + Offset(d).0, i.1 + Offset(d).1, i.2 + Offset(d).2)
  }

  predicate InChunk(p: (int, int, int)) {
    0 <= p.0 < CHUNK_SIZE && 0 <= p.1 < CHUNK_SIZE && 0 <= p.2 < CHUNK_SIZE
  }

  function ToIdx(p: (int, int, int)): Idx
    requires InChunk(p)
  {
    (p.0, p.1, p.2)
  }

  /** Reference definition of a neighbour slot: the neighbour in direction `d` if it lies in the chunk. */
  function SlotFor(i: Idx, d: Direction): Option<(Direction, Idx)> {
    if InChunk(Step(i, d)) then Some((d, ToIdx(Step(i, d)))) else None
  }

  /**
   * `NeighborIterator::from_idx`'s six slots, built as the source does: a
   * neighbour is dropped when x + 1, y + 1 or z + 1 reaches CHUNK_SIZE, or
   * when the coordinate is 0 and subtracting 1 would underflow.
   */
  function NeighborSlots(i: Idx): (slots: seq<Option<(Direction, Idx)>>)
    ensures |slots| == 6
    ensures InBounds(CHUNK_SIZE, i) ==>
              forall j :: 0 <= j < 6 ==> slots[j] == SlotFor(i, DirectionOrder[j])
    ensures InBounds(CHUNK_SIZE, i) ==>
              forall o :: o in slots && o.Some? ==> InBounds(CHUNK_SIZE, o.value.1)
  {
    [ if i.0 + 1 < CHUNK_SIZE then Present(East, (i.0 + 1, i.1, i.2)) else None,
      if i.0 >= 1 then Present(West, (i.0 - 1, i.1, i.2)) else None,
      if i.1 + 1 < CHUNK_SIZE then Present(Up, (i.0, i.1 + 1, i.2)) else None,
      if i.1 >= 1 then Present(Down, (i.0, i.1 - 1, i.2)) else None,
      if i.2 + 1 < CHUNK_SIZE then Present(South, (i.0, i.1, i.2 + 1)) else None,
      if i.2 >= 1 then Present(North, (i.0, i.1, i.2 - 1)) else None ]
  }

  /**
   * A present slot. Spelled out as a function so that every entry of the
   * slot display gets the element type `Idx`: written inline, the display's
   * tuples would get differing `nat`/`int` component types.
   */
  function Present(d: Direction, n: Idx): Option<(Direction, Idx)> {
    Some((d, n))
  }

  /** The present values of a list of slots, in order. */
  function Somes<X>(s: seq<Option<X>>): (r: seq<X>)
    ensures |r| <= |s|
  {
    if s == [] then []
    else Somes(s[..|s| - 1]) + (if s[|s| - 1].Some? then [s[|s| - 1].value] else [])
  }

  /** Each value listed comes from a present slot. */
  lemma {:induction false} SomesMembership<X>(s: seq<Option<X>>, x: X)
    ensures x in Somes(s) ==> Some(x) in s
  {
    if s != [] {
      SomesMembership(s[..|s| - 1], x);
      assert s == s[..|s| - 1] + [s[|s| - 1]];
    }
  }

  /** What a fresh `NeighborIterator` for `i` yields, in order. */
  function Neighbors(i: Idx): (ns: seq<(Direction, Idx)>)
    ensures InBounds(CHUNK_SIZE, i) ==>
              forall k :: 0 <= k < |ns| ==> InBounds(CHUNK_SIZE, ns[k].1)
  {
    var slots := NeighborSlots(i);
    forall k | 0 <= k < |Somes(slots)| ensures InBounds(CHUNK_SIZE, i) ==> InBounds(CHUNK_SIZE, Somes(slots)[k].1) {
      SomesMembership(slots, Somes(slots)[k]);
    }
    Somes(slots)
  }

  /** Reference definition: the directions of `ds`, in order, whose neighbour lies in the chunk. */
  function InChunkNeighbors(i: Idx, ds: seq<Direction>): seq<(Direction, Idx)> {
    if ds == [] then []
    else
      var d := ds[|ds| - 1];
      InChunkNeighbors(i, ds[..|ds| - 1]) + (if InChunk(Step(i, d)) then [(d, ToIdx(Step(i, d)))] else [])
  }

  lemma {:induction false} SomesOfSlots(i: Idx, ds: seq<Direction>)
    ensures Somes(seq(|ds|, j requires 0 <= j < |ds| => SlotFor(i, ds[j]))) == InChunkNeighbors(i, ds)
  {
    var slots := seq(|ds|, j requires 0 <= j < |ds| => SlotFor(i, ds[j]));
    if ds != [] {
      var prefix := ds[..|ds| - 1];
      SomesOfSlots(i, prefix);
      assert slots[..|slots| - 1] == seq(|prefix|, j requires 0 <= j < |prefix| => SlotFor(i, prefix[j]));
    }
  }

  /**
   * `from_idx` lists, in the order East, West, Up, Down, South, North, exactly
   * the neighbours that lie in the chunk.
   */
  lemma NeighborsInOrder(i: Idx)
    requires InBounds(CHUNK_SIZE, i)
    ensures Neighbors(i) == InChunkNeighbors(i, DirectionOrder)
  {
    SomesOfSlots(i, DirectionOrder);
    assert NeighborSlots(i) == seq(6, j requires 0 <= j < 6 => SlotFor(i, DirectionOrder[j]));
  }

  lemma {:induction false} InChunkNeighborsMembership(i: Idx, ds: seq<Direction>, d: Direction, n: Idx)
    ensures (d, n) in InChunkNeighbors(i, ds) <==>
              d in ds && InChunk(Step(i, d)) && n == ToIdx(Step(i, d))
  {
    if ds != [] {
      InChunkNeighborsMembership(i, ds[..|ds| - 1], d, n);
      assert ds == ds[..|ds| - 1] + [ds[|ds| - 1]];
    }
  }

  /** `(d, n)` is yielded for `i` iff the step from `i` in direction `d` stays in the chunk and lands on `n`. */
  lemma NeighborMembership(i: Idx, d: Direction, n: Idx)
    requires InBounds(CHUNK_SIZE, i)
    ensures (d, n) in Neighbors(i) <==> InChunk(Step(i, d)) && n == ToIdx(Step(i, d))
  {
    NeighborsInOrder(i);
    InChunkNeighborsMembership(i, DirectionOrder, d, n);
  }

  function Dist(a: int, b: int): nat {
    if a < b then b - a else a - b
  }

  lemma {:induction false} InChunkNeighborsAdjacent(i: Idx, ds: seq<Direction>)
    ensures forall k :: 0 <= k < |InChunkNeighbors(i, ds)| ==>
              var n := InChunkNeighbors(i, ds)[k].1;
              InBounds(CHUNK_SIZE, n) && Dist(i.0, n.0) + Dist(i.1, n.1) + Dist(i.2, n.2) == 1
  {
    if ds != [] {
      InChunkNeighborsAdjacent(i, ds[..|ds| - 1]);
    }
  }

  /** Every neighbour yielded lies in the chunk and differs from `i` by exactly 1 in exactly one coordinate. */
  lemma NeighborsAdjacent(i: Idx)
    requires InBounds(CHUNK_SIZE, i)
    ensures forall k :: 0 <= k < |Neighbors(i)| ==>
              var n := Neighbors(i)[k].1;
              InBounds(CHUNK_SIZE, n) &&
              Dist(i.0, n.0) + Dist(i.1, n.1) + Dist(i.2, n.2) == 1
  {
    NeighborsInOrder(i);
    InChunkNeighborsAdjacent(i, DirectionOrder);
  }

  /** Number of in-chunk neighbours along one axis at coordinate `c`. */
  function Sides(c: nat): nat {
    (if c >= 1 then 1 else 0) + (if c + 1 < CHUNK_SIZE then 1 else 0)
  }

  /** 1 when the step from `i` towards `d` stays in the chunk. */
  function Gain(i: Idx, d: Direction): nat {
    if InChunk(Step(i, d)) then 1 else 0
  }

  lemma InChunkNeighborsPrefix(i: Idx, ds: seq<Direction>, k: nat)
    requires k < |ds|
    ensures |InChunkNeighbors(i, ds[..k + 1])| == |InChunkNeighbors(i, ds[..k])| + Gain(i, ds[k])
  {
    assert ds[..k + 1][..k] == ds[..k];
  }

  /** The directions `2a` and `2a + 1` of the listing order are the two ends of axis `a`. */
  lemma AxisPair(i: Idx, a: nat)
    requires InBounds(CHUNK_SIZE, i) && a < 3
    ensures |InChunkNeighbors(i, DirectionOrder[..2 * a + 2])| ==
              |InChunkNeighbors(i, DirectionOrder[..2 * a])| + Sides(if a == 0 then i.0 else if a == 1 then i.1 else i.2)
  {
    InChunkNeighborsPrefix(i, DirectionOrder, 2 * a);
    InChunkNeighborsPrefix(i, DirectionOrder, 2 * a + 1);
  }

  lemma InChunkNeighborCount(i: Idx)
    requires InBounds(CHUNK_SIZE, i)
    ensures |InChunkNeighbors(i, DirectionOrder)| == Sides(i.0) + Sides(i.1) + Sides(i.2)
  {
    AxisPair(i, 0);
    AxisPair(i, 1);
    AxisPair(i, 2);
    assert DirectionOrder[..0] == [] && DirectionOrder[..6] == DirectionOrder;
  }

  /** An interior voxel has 6 neighbours, a corner voxel 3. */
  lemma NeighborCount(i: Idx)
    requires InBounds(CHUNK_SIZE, i)
    ensures |Neighbors(i)| == Sides(i.0) + Sides(i.1) + Sides(i.2)
    ensures 1 <= i.0 < CHUNK_SIZE - 1 && 1 <= i.1 < CHUNK_SIZE - 1 && 1 <= i.2 < CHUNK_SIZE - 1 ==>
              |Neighbors(i)| == 6
    ensures i.0 in {0, CHUNK_SIZE - 1} && i.1 in {0, CHUNK_SIZE - 1} && i.2 in {0, CHUNK_SIZE - 1} ==>
              |Neighbors(i)| == 3
  {
    NeighborsInOrder(i);
    InChunkNeighborCount(i);
  }

  /** `NeighborIterator`: walks the six slots, skipping empty ones. */
  class NeighborIterator {
    const neighborIndices: seq<Option<(Direction, Idx)>>
    var currentIdx: nat

    ghost predicate Valid()
      reads this
    {
      |neighborIndices| == 6 && currentIdx <= 6
    }

    /** The neighbours yielded so far. */
    ghost function Yielded(): seq<(Direction, Idx)>
      requires Valid()
      reads this
    {
      Somes(neighborIndices[..currentIdx])
    }

    /** `NeighborIterator::from_idx`. */
    constructor FromIdx(idx: Idx)
      ensures neighborIndices == NeighborSlots(idx) && currentIdx == 0 && Valid()
    {
      neighborIndices := NeighborSlots(idx);
      currentIdx := 0;
    }

    /** `next`: the next present slot; None for good once all six slots were passed. */
    method Next() returns (r: Option<(Direction, Idx)>)
      requires Valid()
      modifies this
      ensures Valid()
      ensures r.Some? ==> Some(r.value) in neighborIndices && Yielded() == old(Yielded()) + [r.value]
      ensures r.Some? ==> old(currentIdx) < currentIdx
      ensures r.None? ==> currentIdx == 6 && Yielded() == old(Yielded()) == Somes(neighborIndices)
      ensures old(currentIdx) == 6 ==> r.None? && currentIdx == 6
    {
      while currentIdx < 6
        invariant Valid() && old(currentIdx) <= currentIdx
        invariant Yielded() == old(Yielded())
      {
        var lastIdx := currentIdx;
        currentIdx := currentIdx + 1;
        assert neighborIndices[..currentIdx] == neighborIndices[..lastIdx] + [neighborIndices[lastIdx]];
        if neighborIndices[lastIdx].Some? {
          return neighborIndices[lastIdx];
        }
      }
      assert neighborIndices[..currentIdx] == neighborIndices;
      return None;
    }
  }

  // ---------------------------------------------------------------------------
  // Which faces are drawn

  /** Every listed neighbour lies inside the chunk. */
  predicate InSlots(ns: seq<(Direction, Idx)>) {
    forall k :: 0 <= k < |ns| ==> InBounds(CHUNK_SIZE, ns[k].1)
  }

  /** The faces the voxel at `cell` shows towards the neighbours in `ns`: one per inactive neighbour, in order. */
  function VisibleFaces(vol: Volume<Voxel>, cell: Idx, ns: seq<(Direction, Idx)>): (fs: seq<Face>)
    requires ChunkVolume(vol)
    requires InSlots(ns)
    reads vol.cells
    ensures |fs| <= |ns|
  {
    if ns == [] then []
    else
      var last := ns[|ns| - 1];
      VisibleFaces(vol, cell, ns[..|ns| - 1]) + (if !vol.Index(last.1).active then [Face(cell, last.0)] else [])
  }

  /** The faces the mesher emits for the first `k` voxels of the traversal. */
  function FacesUpTo(vol: Volume<Voxel>, k: nat): (fs: seq<Face>)
    requires ChunkVolume(vol) && k <= Total(CHUNK_SIZE)
    reads vol.cells
    ensures |fs| <= 6 * k
  {
    if k == 0 then []
    else
      var cell := IdxAt(CHUNK_SIZE, k - 1);
      FacesUpTo(vol, k - 1) +
        (if vol.Index(cell).active then VisibleFaces(vol, cell, Neighbors(cell)) else [])
  }

  /** One more voxel of the traversal adds its visible faces when it is active, and nothing otherwise. */
  lemma FacesUpToStep(vol: Volume<Voxel>, k: nat)
    requires ChunkVolume(vol) && k < Total(CHUNK_SIZE)
    ensures InBounds(CHUNK_SIZE, IdxAt(CHUNK_SIZE, k))
    ensures var cell := IdxAt(CHUNK_SIZE, k);
            FacesUpTo(vol, k + 1) ==
              FacesUpTo(vol, k) + (if vol.Index(cell).active then VisibleFaces(vol, cell, Neighbors(cell)) else [])
  {
  }

  /** Every face the mesher emits for a chunk, in emission order. */
  function Faces(vol: Volume<Voxel>): seq<Face>
    requires ChunkVolume(vol)
    reads vol.cells
  {
    FacesUpTo(vol, Total(CHUNK_SIZE))
  }

  /** A face is drawn iff its voxel is active and its neighbour lies in the chunk and is inactive. */
  predicate FaceShown(vol: Volume<Voxel>, f: Face)
    requires ChunkVolume(vol)
    reads vol.cells
  {
    InBounds(CHUNK_SIZE, f.cell) && vol.Index(f.cell).active &&
    InChunk(Step(f.cell, f.dir)) && !vol.Index(ToIdx(Step(f.cell, f.dir))).active
  }

  lemma {:induction false} VisibleFacesMembership(vol: Volume<Voxel>, cell: Idx, ns: seq<(Direction, Idx)>, f: Face)
    requires ChunkVolume(vol)
    requires InSlots(ns)
    ensures f in VisibleFaces(vol, cell, ns) <==>
              f.cell == cell && exists n :: (f.dir, n) in ns && InBounds(CHUNK_SIZE, n) && !vol.Index(n).active
  {
    if ns != [] {
      var prefix := ns[..|ns| - 1];
      VisibleFacesMembership(vol, cell, prefix, f);
      assert ns == prefix + [ns[|ns| - 1]];
    }
  }

  lemma {:induction false} FacesUpToMembership(vol: Volume<Voxel>, k: nat, f: Face)
    requires ChunkVolume(vol) && k <= Total(CHUNK_SIZE)
    ensures f in FacesUpTo(vol, k) <==> FaceShown(vol, f) && Rank(CHUNK_SIZE, f.cell) < k
  {
    if k > 0 {
      FacesUpToMembership(vol, k - 1, f);
      var cell := IdxAt(CHUNK_SIZE, k - 1);
      if InBounds(CHUNK_SIZE, f.cell) {
        VisitedExactlyOnce(CHUNK_SIZE, f.cell, k - 1);
      }
      if vol.Index(cell).active {
        VoxelFaceMembership(vol, cell, f);
      }
    }
  }

  /** The faces an active voxel shows towards its neighbours are exactly its shown faces. */
  lemma VoxelFaceMembership(vol: Volume<Voxel>, cell: Idx, f: Face)
    requires ChunkVolume(vol) && InBounds(CHUNK_SIZE, cell) && vol.Index(cell).active
    ensures f in VisibleFaces(vol, cell, Neighbors(cell)) <==> f.cell == cell && FaceShown(vol, f)
  {
    VisibleFacesMembership(vol, cell, Neighbors(cell), f);
    if f.cell == cell {
      if InChunk(Step(cell, f.dir)) {
        NeighborMembership(cell, f.dir, ToIdx(Step(cell, f.dir)));
      }
      forall n | (f.dir, n) in Neighbors(cell) ensures InChunk(Step(cell, f.dir)) && n == ToIdx(Step(cell, f.dir)) {
        NeighborMembership(cell, f.dir, n);
      }
    }
  }

  /**
   * `create_mesh` draws the face of voxel p towards d iff p is active, the
   * neighbour towards d lies inside the chunk, and that neighbour is inactive.
   */
  lemma FaceEmittedIff(vol: Volume<Voxel>, f: Face)
    requires ChunkVolume(vol)
    ensures f in Faces(vol) <==> FaceShown(vol, f)
  {
    FacesUpToMembership(vol, Total(CHUNK_SIZE), f);
  }

  /** Faces on the chunk boundary are never drawn. */
  lemma BoundaryFacesOmitted(vol: Volume<Voxel>, f: Face)
    requires ChunkVolume(vol) && !InChunk(Step(f.cell, f.dir))
    ensures f !in Faces(vol)
  {
    FaceEmittedIff(vol, f);
  }

  /** Voxels `a` .. `b - 1` of the traversal add no face when none of them is active. */
  lemma {:induction false} FacesGap(vol: Volume<Voxel>, a: nat, b: nat)
    requires ChunkVolume(vol) && a <= b <= Total(CHUNK_SIZE)
    requires forall k :: a <= k < b ==> !vol.Index(IdxAt(CHUNK_SIZE, k)).active
    ensures FacesUpTo(vol, b) == FacesUpTo(vol, a)
  {
    if a < b {
      FacesGap(vol, a, b - 1);
    }
  }

  /** An all-inactive chunk yields an empty mesh. */
  lemma InactiveChunkHasNoFaces(vol: Volume<Voxel>, table: FaceTable)
    requires ChunkVolume(vol) && NoneActive(vol)
    ensures Faces(vol) == [] && MeshOf(table, Faces(vol)) == EmptyMesh()
  {
    FacesGap(vol, 0, Total(CHUNK_SIZE));
  }

  /** The mesh of a chunk holds at most one quad per voxel side. */
  lemma FaceCountBound(vol: Volume<Voxel>)
    requires ChunkVolume(vol)
    ensures |Faces(vol)| <= 6 * Total(CHUNK_SIZE)
  {
  }

  /** No face occurs twice in `s`. */
  predicate Distinct(s: seq<Face>) {
    forall a, b :: 0 <= a < b < |s| ==> s[a] != s[b]
  }

  /** No direction occurs twice in a neighbour list. */
  predicate DistinctDirections(ns: seq<(Direction, Idx)>) {
    forall a, b :: 0 <= a < b < |ns| ==> ns[a].0 != ns[b].0
  }

  lemma DistinctConcat(s: seq<Face>, t: seq<Face>)
    requires Distinct(s) && Distinct(t)
    requires forall x :: x in s ==> x !in t
    ensures Distinct(s + t)
  {
    forall a, b | 0 <= a < b < |s + t| ensures (s + t)[a] != (s + t)[b] {
      if a < |s| && |s| <= b {
        assert (s + t)[a] in s && (s + t)[b] == t[b - |s|];
      }
    }
  }

  /** Each direction of a repetition-free list contributes at most one neighbour. */
  lemma {:induction false} InChunkNeighborsDistinct(i: Idx, ds: seq<Direction>)
    requires forall a, b :: 0 <= a < b < |ds| ==> ds[a] != ds[b]
    ensures DistinctDirections(InChunkNeighbors(i, ds))
  {
    if ds != [] {
      var prefix := ds[..|ds| - 1];
      var d := ds[|ds| - 1];
      InChunkNeighborsDistinct(i, prefix);
      var before := InChunkNeighbors(i, prefix);
      forall k | 0 <= k < |before| ensures before[k].0 != d {
        InChunkNeighborsMembership(i, prefix, before[k].0, before[k].1);
      }
    }
  }

  /** A voxel's neighbours lie in six different directions. */
  lemma NeighborsDistinct(i: Idx)
    requires InBounds(CHUNK_SIZE, i)
    ensures DistinctDirections(Neighbors(i))
  {
    NeighborsInOrder(i);
    InChunkNeighborsDistinct(i, DirectionOrder);
  }

  /** A voxel shows at most one face per direction. */
  lemma {:induction false} VisibleFacesDistinct(vol: Volume<Voxel>, cell: Idx, ns: seq<(Direction, Idx)>)
    requires ChunkVolume(vol) && InSlots(ns) && DistinctDirections(ns)
    ensures Distinct(VisibleFaces(vol, cell, ns))
  {
    if ns != [] {
      var prefix := ns[..|ns| - 1];
      var last := ns[|ns| - 1];
      assert InSlots(prefix) && DistinctDirections(prefix);
      VisibleFacesDistinct(vol, cell, prefix);
      if !vol.Index(last.1).active {
        assert forall k :: 0 <= k < |prefix| ==> prefix[k].0 != last.0;
        VisibleFacesMembership(vol, cell, prefix, Face(cell, last.0));
        DistinctConcat(VisibleFaces(vol, cell, prefix), [Face(cell, last.0)]);
      }
    }
  }

  lemma {:induction false} FacesUpToDistinct(vol: Volume<Voxel>, k: nat)
    requires ChunkVolume(vol) && k <= Total(CHUNK_SIZE)
    ensures Distinct(FacesUpTo(vol, k))
  {
    if k > 0 {
      FacesUpToDistinct(vol, k - 1);
      var cell := IdxAt(CHUNK_SIZE, k - 1);
      if vol.Index(cell).active {
        var shown := VisibleFaces(vol, cell, Neighbors(cell));
        NeighborsDistinct(cell);
        VisibleFacesDistinct(vol, cell, Neighbors(cell));
        forall f | f in FacesUpTo(vol, k - 1) ensures f !in shown {
          FacesUpToMembership(vol, k - 1, f);
          VisibleFacesMembership(vol, cell, Neighbors(cell), f);
        }
        DistinctConcat(FacesUpTo(vol, k - 1), shown);
      }
    }
  }

  /** `create_mesh` draws each face at most once: no two quads of a chunk mesh share a voxel and a direction. */
  lemma FacesOnce(vol: Volume<Voxel>)
    requires ChunkVolume(vol)
    ensures forall a, b :: 0 <= a < b < |Faces(vol)| ==> Faces(vol)[a] != Faces(vol)[b]
  {
    FacesUpToDistinct(vol, Total(CHUNK_SIZE));
  }

  // ---------------------------------------------------------------------------
  // Shape of the mesh

  /** The index list of a mesh of `n` quads. */
  function QuadsIndices(n: nat): (ix: seq<nat>)
    ensures |ix| == 6 * n
  {
    if n == 0 then [] else QuadsIndices(n - 1) + QuadIndices(4 * (n - 1))
  }

  /** The indices of a mesh depend only on its number of faces. */
  lemma {:induction false} MeshIndicesAre(table: FaceTable, faces: seq<Face>)
    ensures MeshOf(table, faces).indices == QuadsIndices(|faces|)
  {
    if faces != [] {
      MeshIndicesAre(table, faces[..|faces| - 1]);
    }
  }

  lemma {:induction false} QuadsIndicesAt(n: nat, k: nat, j: nat)
    requires k < n && j < 6
    ensures QuadsIndices(n)[6 * k + j] == 4 * k + QUAD[j]
  {
    if k < n - 1 {
      QuadsIndicesAt(n - 1, k, j);
    }
  }

  /** Quad k's six indices are 4k + [0, 1, 2, 2, 3, 0]. */
  lemma MeshIndicesAt(table: FaceTable, faces: seq<Face>, k: nat, j: nat)
    requires k < |faces| && j < 6
    ensures 6 * k + j < |MeshOf(table, faces).indices| && MeshOf(table, faces).indices[6 * k + j] == 4 * k + QUAD[j]
  {
    MeshIndicesAre(table, faces);
    QuadsIndicesAt(|faces|, k, j);
  }

  /** Every face-table entry is a quad. */
  predicate QuadTable(table: FaceTable) {
    |table.py| == 4 && |table.ny| == 4 && |table.nz| == 4 &&
    |table.px| == 4 && |table.pz| == 4 && |table.nx| == 4
  }

  lemma {:induction false} MeshVertexCount(table: FaceTable, faces: seq<Face>)
    requires QuadTable(table)
    ensures |MeshOf(table, faces).vertices| == 4 * |faces|
  {
    if faces != [] {
      MeshVertexCount(table, faces[..|faces| - 1]);
      assert |GetFaceMesh(table, faces[|faces| - 1].dir)| == 4;
    }
  }

  /**
   * With a quad face table: 4 vertices per face, `indices.len() == 1.5 * vertices.len()`,
   * and every index names an existing vertex.
   */
  lemma MeshWellFormed(table: FaceTable, faces: seq<Face>)
    requires QuadTable(table)
    ensures var m := MeshOf(table, faces);
            |m.vertices| == 4 * |faces| && 2 * |m.indices| == 3 * |m.vertices| &&
            forall p :: 0 <= p < |m.indices| ==> m.indices[p] < |m.vertices|
  {
    var m := MeshOf(table, faces);
    MeshLengths(table, faces);
    MeshVertexCount(table, faces);
    forall p | 0 <= p < |m.indices| ensures m.indices[p] < |m.vertices| {
      MeshIndicesAt(table, faces, p / 6, p % 6);
    }
  }

  /** Every index of a chunk mesh fits the source's `u32` index counter. */
  lemma IndicesFitU32(vol: Volume<Voxel>, table: FaceTable)
    requires ChunkVolume(vol)
    ensures forall p :: 0 <= p < |MeshOf(table, Faces(vol)).indices| ==>
              MeshOf(table, Faces(vol)).indices[p] < 0x1_0000_0000
  {
    var faces := Faces(vol);
    var m := MeshOf(table, faces);
    MeshLengths(table, faces);
    FaceCountBound(vol);
    forall p | 0 <= p < |m.indices| ensures m.indices[p] < 0x1_0000_0000 {
      MeshIndicesAt(table, faces, p / 6, p % 6);
    }
  }

  // ---------------------------------------------------------------------------
  // Mesh generation

  /** What the face loop needs of a fresh neighbour iterator's slots. */
  lemma SlotsOfNeighbors(i: Idx)
    requires InBounds(CHUNK_SIZE, i)
    ensures Somes(NeighborSlots(i)) == Neighbors(i)
    ensures forall j :: 0 <= j < 6 && NeighborSlots(i)[j].Some? ==> InBounds(CHUNK_SIZE, NeighborSlots(i)[j].value.1)
  {
  }

  /** Adding one neighbour to the list adds at most its face, after whatever `before` was emitted. */
  lemma VisibleFacesSnoc(vol: Volume<Voxel>, cell: Idx, before: seq<Face>, ns: seq<(Direction, Idx)>, n: (Direction, Idx))
    requires ChunkVolume(vol)
    requires InSlots(ns)
    requires InBounds(CHUNK_SIZE, n.1)
    ensures InSlots(ns + [n])
    ensures before + VisibleFaces(vol, cell, ns + [n]) ==
              before + VisibleFaces(vol, cell, ns) + (if !vol.Index(n.1).active then [Face(cell, n.0)] else [])
  {
    var longer := ns + [n];
    forall k | 0 <= k < |longer| ensures InBounds(CHUNK_SIZE, longer[k].1) {
      if k < |ns| {
        assert longer[k] == ns[k];
      }
    }
    assert longer[..|longer| - 1] == ns;
    var tail := if !vol.Index(n.1).active then [Face(cell, n.0)] else [];
    var fs := VisibleFaces(vol, cell, ns);
    assert VisibleFaces(vol, cell, longer) == fs + tail;
    assert before + (fs + tail) == before + fs + tail;
  }

  /** Adding one face to the list appends exactly its quad. */
  lemma MeshOfSnoc(table: FaceTable, faces: seq<Face>, f: Face)
    ensures MeshOf(table, faces + [f]) == AddQuad(MeshOf(table, faces), GetFaceMesh(table, f.dir), f.cell, 4 * |faces|)
  {
    assert (faces + [f])[..|faces|] == faces;
  }

  /**
   * The body of the face loop: push the face's vertices, normals and uvs, then the
   * quad's six indices. Appended to the mesh of `faces`, it yields the mesh of one more face.
   */
  method AppendFace(mesh: ChunkMesh, faceMesh: FaceMesh, cell: Idx, currentIndex: nat) returns (m: ChunkMesh)
    ensures m == AddQuad(mesh, faceMesh, cell, currentIndex)
  {
    m := mesh;
    var j := 0;
    while j < |faceMesh|
      invariant 0 <= j <= |faceMesh|
      invariant m.vertices == mesh.vertices + Placed(faceMesh[..j], cell)
      invariant m.normals == mesh.normals + NormalsOf(faceMesh[..j])
      invariant m.uvs == mesh.uvs + UvsOf(faceMesh[..j])
      invariant m.indices == mesh.indices
    {
      var vertex := faceMesh[j];
      assert faceMesh[..j + 1][..j] == faceMesh[..j];
      m := m.(vertices := m.vertices + [MeshVertex(cell, vertex.0)]);
      m := m.(normals := m.normals + [vertex.1]);
      m := m.(uvs := m.uvs + [vertex.2]);
      j := j + 1;
    }
    assert faceMesh[..|faceMesh|] == faceMesh;
    var t := 0;
    while t < |QUAD|
      invariant 0 <= t <= |QUAD|
      invariant m.vertices == mesh.vertices + Placed(faceMesh, cell)
      invariant m.normals == mesh.normals + NormalsOf(faceMesh)
      invariant m.uvs == mesh.uvs + UvsOf(faceMesh)
      invariant m.indices == mesh.indices + QuadIndices(currentIndex)[..t]
    {
      m := m.(indices := m.indices + [QUAD[t] + currentIndex]);
      t := t + 1;
    }
  }

  /** Drawing one more face: the mesh of `faces` becomes the mesh of `faces` and that face. */
  method DrawFace(mesh: ChunkMesh, table: FaceTable, face: Face, currentIndex: nat, ghost faces: seq<Face>)
    returns (m: ChunkMesh)
    requires mesh == MeshOf(table, faces) && currentIndex == 4 * |faces|
    ensures m == MeshOf(table, faces + [face])
  {
    m := AppendFace(mesh, GetFaceMesh(table, face.dir), face.cell, currentIndex);
    MeshOfSnoc(table, faces, face);
  }

  /**
   * The inner loop of `create_mesh`: drains `neighbors`, appending a quad of voxel
   * `idx` for each neighbour that is inactive to a mesh holding the quads of `faces`.
   */
  method EmitVoxelFaces(vol: Volume<Voxel>, table: FaceTable, idx: Idx, neighbors: NeighborIterator,
                        mesh: ChunkMesh, currentIndex: nat, ghost faces: seq<Face>)
    returns (mesh': ChunkMesh, currentIndex': nat)
    requires ChunkVolume(vol) && neighbors.Valid() && neighbors.currentIdx == 0
    requires forall j :: 0 <= j < 6 && neighbors.neighborIndices[j].Some? ==>
               InBounds(CHUNK_SIZE, neighbors.neighborIndices[j].value.1)
    requires mesh == MeshOf(table, faces) && currentIndex == 4 * |faces|
    modifies neighbors
    ensures InSlots(Somes(neighbors.neighborIndices))
    ensures mesh' == MeshOf(table, faces + VisibleFaces(vol, idx, Somes(neighbors.neighborIndices)))
    ensures currentIndex' == 4 * |faces + VisibleFaces(vol, idx, Somes(neighbors.neighborIndices))|
  {
    mesh', currentIndex' := mesh, currentIndex;
    ghost var emitted := faces;
    ghost var seen: seq<(Direction, Idx)> := [];
    while true
      invariant neighbors.Valid() && seen == neighbors.Yielded()
      invariant InSlots(seen)
      invariant emitted == faces + VisibleFaces(vol, idx, seen)
      invariant mesh' == MeshOf(table, emitted) && currentIndex' == 4 * |emitted|
      decreases 6 - neighbors.currentIdx
    {
      var next := neighbors.Next();
      if next == None {
        break;
      }
      var (direction, neighborIdx) := next.value;
      assert InBounds(CHUNK_SIZE, neighborIdx) by {
        var j :| 0 <= j < 6 && neighbors.neighborIndices[j] == next;
      }
      VisibleFacesSnoc(vol, idx, faces, seen, (direction, neighborIdx));
      seen := seen + [(direction, neighborIdx)];
      var neighborVoxel := vol.Index(neighborIdx);
      if !neighborVoxel.active {
        mesh' := DrawFace(mesh', table, Face(idx, direction), currentIndex', emitted);
        emitted := emitted + [Face(idx, direction)];
        currentIndex' := currentIndex' + 4;
      }
    }
  }

  /** The faces of one active voxel: the neighbour loop run over `NeighborIterator::from_idx(idx)`. */
  method DrawVoxel(vol: Volume<Voxel>, table: FaceTable, idx: Idx,
                   mesh: ChunkMesh, currentIndex: nat, ghost faces: seq<Face>)
    returns (mesh': ChunkMesh, currentIndex': nat)
    requires ChunkVolume(vol) && InBounds(CHUNK_SIZE, idx)
    requires mesh == MeshOf(table, faces) && currentIndex == 4 * |faces|
    ensures mesh' == MeshOf(table, faces + VisibleFaces(vol, idx, Neighbors(idx)))
    ensures currentIndex' == 4 * |faces + VisibleFaces(vol, idx, Neighbors(idx))|
  {
    var neighbors := new NeighborIterator.FromIdx(idx);
    SlotsOfNeighbors(idx);
    mesh', currentIndex' := EmitVoxelFaces(vol, table, idx, neighbors, mesh, currentIndex, faces);
  }

  /** `Chunk::create_mesh`: one quad per drawn face, in traversal order and then neighbour order. */
  method CreateMesh(chunk: Chunk, table: FaceTable) returns (mesh: ChunkMesh)
    requires ChunkVolume(chunk.volume)
    ensures mesh == MeshOf(table, Faces(chunk.volume))
  {
    var vol := chunk.volume;
    mesh := EmptyMesh();
    var currentIndex: nat := 0;
    ghost var faces: seq<Face> := [];

    var it := vol.Iter();
    while true
      invariant it.Valid() && it.vol == vol && it.Position() <= Total(CHUNK_SIZE)
      invariant faces == FacesUpTo(vol, it.Position())
      invariant mesh == MeshOf(table, faces) && currentIndex == 4 * |faces|
      decreases Total(CHUNK_SIZE) - it.Position()
    {
      ghost var k := it.Position();
      var item := it.Next();
      if item == None {
        assert k == Total(CHUNK_SIZE);
        break;
      }
      var (idx, voxel) := item.value;
      FacesUpToStep(vol, k);
      if !voxel.active {
        continue;
      }

      mesh, currentIndex := DrawVoxel(vol, table, idx, mesh, currentIndex, faces);
      faces := faces + VisibleFaces(vol, idx, Neighbors(idx));
    }
  }

  // ---------------------------------------------------------------------------
  // Counting faces

  /** 1 when the side of `c` facing `d` borders an inactive voxel of the chunk. */
  function ExposedSide(vol: Volume<Voxel>, c: Idx, d: Direction): nat
    requires ChunkVolume(vol)
    reads vol.cells
  {
    if InChunk(Step(c, d)) && !vol.Index(ToIdx(Step(c, d))).active then 1 else 0
  }

  /** Number of faces of `c` that border inactive voxels of the chunk. */
  function Exposed(vol: Volume<Voxel>, c: Idx): nat
    requires ChunkVolume(vol)
    reads vol.cells
  {
    ExposedSide(vol, c, East) + ExposedSide(vol, c, West) + ExposedSide(vol, c, Up) +
    ExposedSide(vol, c, Down) + ExposedSide(vol, c, South) + ExposedSide(vol, c, North)
  }

  /** Taking one more direction into account adds exactly that side's contribution. */
  lemma ExposedPrefix(vol: Volume<Voxel>, c: Idx, k: nat, d: Direction)
    requires ChunkVolume(vol) && k < |DirectionOrder| && DirectionOrder[k] == d
    ensures InSlots(InChunkNeighbors(c, DirectionOrder[..k])) && InSlots(InChunkNeighbors(c, DirectionOrder[..k + 1]))
    ensures |VisibleFaces(vol, c, InChunkNeighbors(c, DirectionOrder[..k + 1]))| ==
              |VisibleFaces(vol, c, InChunkNeighbors(c, DirectionOrder[..k]))| + ExposedSide(vol, c, d)
  {
    var ds := DirectionOrder;
    assert ds[..k + 1][..k] == ds[..k];
    InChunkNeighborsAdjacent(c, ds[..k]);
    InChunkNeighborsAdjacent(c, ds[..k + 1]);
    var before := InChunkNeighbors(c, ds[..k]);
    if InChunk(Step(c, d)) {
      var n := (d, ToIdx(Step(c, d)));
      assert InChunkNeighbors(c, ds[..k + 1]) == before + [n];
      VisibleFacesSnoc(vol, c, [], before, n);
      assert [] + VisibleFaces(vol, c, before + [n]) == VisibleFaces(vol, c, before + [n]);
      assert [] + VisibleFaces(vol, c, before) == VisibleFaces(vol, c, before);
    } else {
      assert InChunkNeighbors(c, ds[..k + 1]) == before;
    }
  }

  lemma NeighborsAsPrefix(c: Idx)
    requires InBounds(CHUNK_SIZE, c)
    ensures Neighbors(c) == InChunkNeighbors(c, DirectionOrder[..6])
  {
    NeighborsInOrder(c);
    assert DirectionOrder[..0] == [] && DirectionOrder[..6] == DirectionOrder;
  }

  /**
   * Linear arithmetic over seven running totals and six side contributions,
   * kept apart so that the solver sees plain integers instead of the six
   * case splits inside `ExposedSide`.
   */
  lemma SumOfSteps(a0: int, a1: int, a2: int, a3: int, a4: int, a5: int, a6: int,
                   h0: int, h1: int, h2: int, h3: int, h4: int, h5: int)
    requires a0 == 0 && a1 == a0 + h0 && a2 == a1 + h1 && a3 == a2 + h2
    requires a4 == a3 + h3 && a5 == a4 + h4 && a6 == a5 + h5
    ensures a6 == h0 + h1 + h2 + h3 + h4 + h5
  {
  }

  /** Walking the six directions in listing order adds up the six sides' contributions. */
  lemma ExposedChain(vol: Volume<Voxel>, c: Idx)
    requires ChunkVolume(vol)
    ensures InSlots(InChunkNeighbors(c, DirectionOrder[..6]))
    ensures |VisibleFaces(vol, c, InChunkNeighbors(c, DirectionOrder[..6]))| ==
              ExposedSide(vol, c, East) + ExposedSide(vol, c, West) + ExposedSide(vol, c, Up) +
              ExposedSide(vol, c, Down) + ExposedSide(vol, c, South) + ExposedSide(vol, c, North)
  {
    var ds := DirectionOrder;
    assert ds[..0] == [];
    ExposedPrefix(vol, c, 0, East);
    ExposedPrefix(vol, c, 1, West);
    ExposedPrefix(vol, c, 2, Up);
    ExposedPrefix(vol, c, 3, Down);
    ExposedPrefix(vol, c, 4, South);
    ExposedPrefix(vol, c, 5, North);
    SumOfSteps(|VisibleFaces(vol, c, InChunkNeighbors(c, ds[..0]))|, |VisibleFaces(vol, c, InChunkNeighbors(c, ds[..1]))|,
               |VisibleFaces(vol, c, InChunkNeighbors(c, ds[..2]))|, |VisibleFaces(vol, c, InChunkNeighbors(c, ds[..3]))|,
               |VisibleFaces(vol, c, InChunkNeighbors(c, ds[..4]))|, |VisibleFaces(vol, c, InChunkNeighbors(c, ds[..5]))|,
               |VisibleFaces(vol, c, InChunkNeighbors(c, ds[..6]))|,
               ExposedSide(vol, c, East), ExposedSide(vol, c, West), ExposedSide(vol, c, Up),
               ExposedSide(vol, c, Down), ExposedSide(vol, c, South), ExposedSide(vol, c, North));
  }

  /** The faces a voxel shows are its sides that border inactive voxels of the chunk. */
  lemma ExposedFaces(vol: Volume<Voxel>, c: Idx)
    requires ChunkVolume(vol) && InBounds(CHUNK_SIZE, c)
    ensures |VisibleFaces(vol, c, Neighbors(c))| == Exposed(vol, c)
  {
    NeighborsAsPrefix(c);
    ExposedChain(vol, c);
  }

  /** The number of exposed sides of the active voxels among the first `k` of the traversal. */
  function ExposedUpTo(vol: Volume<Voxel>, k: nat): nat
    requires ChunkVolume(vol) && k <= Total(CHUNK_SIZE)
    reads vol.cells
  {
    if k == 0 then 0
    else
      var cell := IdxAt(CHUNK_SIZE, k - 1);
      ExposedUpTo(vol, k - 1) + (if vol.Index(cell).active then Exposed(vol, cell) else 0)
  }

  /** The first `k` voxels of the traversal emit one face per exposed side of each active voxel. */
  lemma {:induction false} FaceCount(vol: Volume<Voxel>, k: nat)
    requires ChunkVolume(vol) && k <= Total(CHUNK_SIZE)
    ensures |FacesUpTo(vol, k)| == ExposedUpTo(vol, k)
  {
    if k > 0 {
      FaceCount(vol, k - 1);
      var cell := IdxAt(CHUNK_SIZE, k - 1);
      if vol.Index(cell).active {
        ExposedFaces(vol, cell);
      }
    }
  }

  // ---------------------------------------------------------------------------
  // Building chunks

  /**
   * `Chunk::new`: takes the volume over and scans it once, so that `empty`
   * holds iff no voxel is active.
   */
  method NewChunk(position: ChunkPosition, volume: Volume<Voxel>) returns (c: Chunk)
    requires ChunkVolume(volume)
    ensures c.position == position && c.volume == volume
    ensures c.empty <==> NoneActive(volume)
  {
    var empty := true;
    var it := volume.Iter();
    IdxAtRankAll(CHUNK_SIZE);
    while true
      invariant it.Valid() && it.vol == volume && it.Position() <= Total(CHUNK_SIZE)
      invariant empty <==> forall i: Idx :: InBounds(CHUNK_SIZE, i) && Rank(CHUNK_SIZE, i) < it.Position() ==>
                                             !volume.Index(i).active
      decreases Total(CHUNK_SIZE) - it.Position()
    {
      var item := it.Next();
      if item == None {
        break;
      }
      var (idx, voxel) := item.value;
      if voxel.active {
        empty := false;
      }
    }
    c := Chunk(position, empty, volume);
  }

  /** The voxels `Chunk::example_chunk` activates: a vertical column of three. */
  predicate InExampleColumn(i: Idx) {
    i == (5, 4, 5) || i == (5, 5, 5) || i == (5, 6, 5)
  }

  /** `Chunk::example_chunk`: an otherwise inactive chunk at (1, 0, 0) holding the column (5, 4..6, 5). */
  method ExampleChunk() returns (c: Chunk)
    ensures c.position == (1, 0, 0) && !c.empty && ChunkVolume(c.volume) && fresh(c.volume.cells)
    ensures forall i: Idx :: InBounds(CHUNK_SIZE, i) ==> (c.volume.Index(i).active <==> InExampleColumn(i))
  {
    var volume := new Volume<Voxel>.Filled(CHUNK_SIZE, Inactive());
    volume.Set((5, 5, 5), volume.Index((5, 5, 5)).(active := true));
    volume.Set((5, 4, 5), volume.Index((5, 4, 5)).(active := true));
    volume.Set((5, 6, 5), volume.Index((5, 6, 5)).(active := true));
    c := Chunk((1, 0, 0), false, volume);
  }

  /**
   * `Chunk::random_chunk`: visits every index once and activates the voxel when
   * that step's random draw exceeds 0.075; `empty` stays true until a voxel is
   * activated. `draw(k)` is the value `rand::random` returns on its k-th call.
   */
  method RandomChunk(position: ChunkPosition, draw: nat -> real) returns (c: Chunk)
    ensures c.position == position && ChunkVolume(c.volume) && fresh(c.volume.cells)
    ensures forall i: Idx :: InBounds(CHUNK_SIZE, i) ==>
              (c.volume.Index(i).active <==> draw(Rank(CHUNK_SIZE, i)) > 0.075)
    ensures c.empty <==> NoneActive(c.volume)
  {
    var volume := new Volume<Voxel>.Filled(CHUNK_SIZE, Inactive());
    var empty := true;
    var step: nat := 0;
    var it := volume.IterIndices();
    while true
      invariant it.Valid() && it.size == CHUNK_SIZE && step == it.Position() <= Total(CHUNK_SIZE)
      invariant ChunkVolume(volume) && fresh(volume.cells)
      invariant forall i: Idx :: InBounds(CHUNK_SIZE, i) ==>
                  (volume.Index(i).active <==> Rank(CHUNK_SIZE, i) < step && draw(Rank(CHUNK_SIZE, i)) > 0.075)
      invariant empty <==> NoneActive(volume)
      decreases Total(CHUNK_SIZE) - step
    {
      var next := it.Next();
      if next == None {
        break;
      }
      var idx := next.value;
      RankSingles(CHUNK_SIZE, idx, step);
      if draw(step) > 0.075 {
        volume.Set(idx, volume.Index(idx).(active := true));
        empty := false;
      }
      step := step + 1;
    }
    c := Chunk(position, empty, volume);
  }
}
