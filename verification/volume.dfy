/**
 * A dense SIZE x SIZE x SIZE container (`Volume<T, SIZE>` in src/util/volume.rs),
 * its checked and unchecked accessors and its two hand-written iterators.
 *
 * Traversal order is captured by `Rank`: the iterators visit the cell of rank k
 * at their k-th step, with x varying fastest, then y, then z.
 */
module Volumes {
  import opened Wrappers

  /** An index into a volume: (x, y, z). */
  type Idx = (nat, nat, nat)

  predicate InBounds(size: nat, i: Idx) {
    i.0 < size && i.1 < size && i.2 < size
  }

  /** Number of cells in a volume of the given side length. */
  function Total(size: nat): nat {
    size * size * size
  }

  /** Step at which a traversal visits `i`: x fastest, then y, then z. */
  function Rank(size: nat, i: Idx): (r: nat)
    ensures InBounds(size, i) ==> r < Total(size)
  {
    RankBelowTotal(size, i);
    i.0 + size * (i.1 + size * i.2)
  }

  /** The index a traversal visits at step `k`. */
  function IdxAt(size: nat, k: nat): (i: Idx)
    ensures k < Total(size) ==> InBounds(size, i) && Rank(size, i) == k
  {
    if size == 0 then (0, 0, 0)
    else
      var (x, q) := Split(k, size);
      var (y, z) := Split(q, size);
      IdxAtInBounds(size, k, x, q, y, z);
      (x, y, z)
  }

  /** `k` split by the side length into `(k % s, k / s)`. */
  function Split(k: nat, s: nat): (r: (nat, nat))
    requires 0 < s
    ensures r.0 < s && k == r.0 + s * r.1
  {
    (k % s, k / s)
  }

  // ---------------------------------------------------------------------------
  // Arithmetic helpers about multiplication by the side length

  lemma MulGap(s: nat, p: int, q: int)
    requires p < q
    ensures s * p + s <= s * q
  {
    var d: nat := q - p - 1;
    assert s * q == s * p + s * d + s;
  }

  /** A number has one digit/rest split: `a + s * p == b + s * q` with both digits below `s` forces equal parts. */
  lemma SplitUnique(s: nat, a: nat, p: nat, b: nat, q: nat)
    requires a < s && b < s && a + s * p == b + s * q
    ensures a == b && p == q
  {
    if p < q {
      MulGap(s, p, q);
    } else if q < p {
      MulGap(s, q, p);
    }
  }

  /** Two-level lexicographic comparison of `a + s * p`. */
  lemma LexLess(s: nat, a: int, p: int, b: int, q: int)
    requires 0 <= a < s && 0 <= b < s
    ensures a + s * p < b + s * q <==> p < q || (p == q && a < b)
  {
    if p < q {
      MulGap(s, p, q);
    } else if q < p {
      MulGap(s, q, p);
    }
  }

  lemma RankBelowTotal(size: nat, i: Idx)
    ensures 0 <= size * i.2 && 0 <= size * (i.1 + size * i.2)
    ensures InBounds(size, i) ==> i.0 + size * (i.1 + size * i.2) < Total(size)
  {
    if InBounds(size, i) {
      MulGap(size, i.2, size);
      MulGap(size, i.1 + size * i.2, size * size);
    }
  }

  lemma IdxAtInBounds(size: nat, k: nat, x: nat, q: nat, y: nat, z: nat)
    requires x < size && y < size && k == x + size * q && q == y + size * z
    ensures k < Total(size) ==> z < size && x + size * (y + size * z) == k
  {
    if k < Total(size) && z >= size {
      MulGap(size, size - 1, z);
      assert size * (size - 1) + size == size * size;
      MulGap(size, size * size - 1, q);
    }
  }

  // ---------------------------------------------------------------------------
  // The traversal order

  /** Rank and IdxAt are inverse on the cells of the volume: the cell `i` is visited at step Rank(i) and at no other. */
  lemma {:induction false} IdxAtRank(size: nat, i: Idx)
    requires InBounds(size, i)
    ensures IdxAt(size, Rank(size, i)) == i
  {
    var k := Rank(size, i);
    var (x, q) := Split(k, size);
    SplitUnique(size, x, q, i.0, i.1 + size * i.2);
    var (y, z) := Split(q, size);
    SplitUnique(size, y, z, i.1, i.2);
  }

  /** Every cell is visited exactly once: at step k a traversal is at `i` iff k is the rank of `i`. */
  lemma VisitedExactlyOnce(size: nat, i: Idx, k: nat)
    requires InBounds(size, i) && k < Total(size)
    ensures IdxAt(size, k) == i <==> k == Rank(size, i)
  {
    IdxAtRank(size, i);
  }

  /** Traversal order is lexicographic on (z, y, x): x varies fastest, then y, then z. */
  lemma RankOrder(size: nat, i: Idx, j: Idx)
    requires InBounds(size, i) && InBounds(size, j)
    ensures Rank(size, i) < Rank(size, j) <==>
              i.2 < j.2 || (i.2 == j.2 && (i.1 < j.1 || (i.1 == j.1 && i.0 < j.0)))
  {
    var p, q := i.1 + size * i.2, j.1 + size * j.2;
    LexLess(size, i.1, i.2, j.1, j.2);
    LexLess(size, j.1, j.2, i.1, i.2);
    assert p == q <==> i.2 == j.2 && i.1 == j.1;
    LexLess(size, i.0, p, j.0, q);
  }

  /**
   * The states an iterator's cursor can be in: on a cell of the volume, or on
   * (0, 0, SIZE), the state the last step leaves behind. An exhausted iterator
   * is one whose z coordinate has reached SIZE.
   */
  predicate ValidCursor(size: nat, c: Idx) {
    InBounds(size, c) || c == (0, 0, size)
  }

  lemma CursorPosition(size: nat, c: Idx)
    requires ValidCursor(size, c)
    ensures Rank(size, c) <= Total(size)
    ensures c.2 >= size <==> Rank(size, c) == Total(size)
    ensures c.2 < size ==> IdxAt(size, Rank(size, c)) == c
  {
    if c.2 < size {
      IdxAtRank(size, c);
    }
  }

  /**
   * One step of the field-by-field advance that both iterators perform:
   * bump x; on overflow reset it and bump y; on overflow reset y and bump z.
   */
  lemma AdvanceRank(size: nat, c: Idx)
    requires InBounds(size, c)
    ensures c.0 + 1 < size ==>
              Rank(size, (c.0 + 1, c.1, c.2)) == Rank(size, c) + 1
    ensures c.0 + 1 >= size && c.1 + 1 < size ==>
              Rank(size, (0, c.1 + 1, c.2)) == Rank(size, c) + 1
    ensures c.0 + 1 >= size && c.1 + 1 >= size ==>
              Rank(size, (0, 0, c.2 + 1)) == Rank(size, c) + 1
  {
    if c.0 + 1 >= size {
      if c.1 + 1 < size {
        assert size * (c.1 + 1 + size * c.2) == size * (c.1 + size * c.2) + size;
      } else {
        assert size * (size * (c.2 + 1)) == size * (size * c.2) + size * size;
      }
    }
  }

  // ---------------------------------------------------------------------------
  // The container

  /** `Volume<T, SIZE>`: cells[x, y, z] is the Rust `self.0[x][y][z]`. */
  class Volume<T> {
    const size: nat
    const cells: array3<T>

    predicate Valid() {
      cells.Length0 == size && cells.Length1 == size && cells.Length2 == size
    }

    /** `Volume::filled`: every cell holds `item`. */
    constructor Filled(size: nat, item: T)
      ensures this.size == size && Valid() && fresh(cells)
      ensures forall i: Idx :: InBounds(size, i) ==> Index(i) == item
    {
      this.size := size;
      cells := new T[size, size, size]((x, y, z) => item);
    }

    /** `From<[[[T; SIZE]; SIZE]; SIZE]>`: takes over a nested array, indexed [x][y][z]. */
    constructor FromNested(arr: seq<seq<seq<T>>>, size: nat)
      requires IsCube(arr, size)
      ensures this.size == size && Valid() && fresh(cells)
      ensures forall i: Idx :: InBounds(size, i) ==> Index(i) == arr[i.0][i.1][i.2]
      ensures ToNested() == arr
    {
      this.size := size;
      cells := new T[size, size, size]((x: nat, y: nat, z: nat)
        requires x < |arr| && y < |arr[x]| && z < |arr[x][y]| => arr[x][y][z]);
      new;
      NestedExtensional(ToNested(), arr, size);
    }

    /** `Index::index`: the unchecked read; an index out of range is a caller error. */
    function Index(i: Idx): (r: T)
      requires Valid() && InBounds(size, i)
      reads cells
      ensures Get(i) == Some(r)
    {
      cells[i.0, i.1, i.2]
    }

    /** `IndexMut::index_mut`, used as an assignment: the cell at `i` becomes `v`, no other cell changes. */
    method Set(i: Idx, v: T)
      requires Valid() && InBounds(size, i)
      modifies cells
      ensures Index(i) == v
      ensures forall j :: InBounds(size, j) && j != i ==> Index(j) == old(Index(j))
    {
      cells[i.0, i.1, i.2] := v;
    }

    /** `get`: the checked read. */
    function Get(i: Idx): (r: Option<T>)
      requires Valid()
      reads cells
      ensures r == None <==> (i.0 >= size || i.1 >= size || i.2 >= size)
      ensures r != None ==> r.value == cells[i.0, i.1, i.2]
    {
      if i.0 >= size || i.1 >= size || i.2 >= size then None else Some(cells[i.0, i.1, i.2])
    }

    /** `From<Volume<T, SIZE>>` for the nested array: gives the cells back, indexed [x][y][z]. */
    function ToNested(): (arr: seq<seq<seq<T>>>)
      requires Valid()
      reads cells
      ensures IsCube(arr, size)
      ensures forall i: Idx :: InBounds(size, i) ==> arr[i.0][i.1][i.2] == Index(i)
    {
      seq(size, (x: nat) requires x < size reads cells =>
        seq(size, (y: nat) requires y < size reads cells =>
          seq(size, (z: nat) requires z < size reads cells => cells[x, y, z])))
    }

    /** `iter`: a fresh traversal of (index, item) pairs. */
    method Iter() returns (it: VolumeIterator<T>)
      requires Valid()
      ensures fresh(it) && it.vol == this && it.Valid() && it.Position() == 0
    {
      it := new VolumeIterator(this);
    }

    /** `iter_indices`: a fresh traversal of indices only. */
    method IterIndices() returns (it: VolumeIndexIterator)
      ensures fresh(it) && it.size == size && it.Valid() && it.Position() == 0
    {
      it := new VolumeIndexIterator(size);
    }
  }

  /** `arr` has the shape [[[T; size]; size]; size]. */
  predicate IsCube<T>(arr: seq<seq<seq<T>>>, size: nat) {
    |arr| == size &&
    (forall x :: 0 <= x < size ==> |arr[x]| == size) &&
    (forall x, y :: 0 <= x < size && 0 <= y < size ==> |arr[x][y]| == size)
  }

  lemma NestedExtensional<T>(a: seq<seq<seq<T>>>, b: seq<seq<seq<T>>>, size: nat)
    requires IsCube(a, size) && IsCube(b, size)
    requires forall i: Idx :: InBounds(size, i) ==> a[i.0][i.1][i.2] == b[i.0][i.1][i.2]
    ensures a == b
  {
    forall x | 0 <= x < size ensures a[x] == b[x] {
      forall y | 0 <= y < size ensures a[x][y] == b[x][y] {
        forall z | 0 <= z < size ensures a[x][y][z] == b[x][y][z] {
          assert InBounds(size, (x, y, z));
        }
      }
    }
  }

  // ---------------------------------------------------------------------------
  // Iterators

  /** `VolumeIterator`: yields (index, item) pairs in traversal order. */
  class VolumeIterator<T> {
    const vol: Volume<T>
    var idx: Idx

    ghost predicate Valid()
      reads this
    {
      vol.Valid() && ValidCursor(vol.size, idx)
    }

    /** Number of steps taken so far. */
    ghost function Position(): nat
      reads this
    {
      Rank(vol.size, idx)
    }

    constructor (vol: Volume<T>)
      requires vol.Valid()
      ensures this.vol == vol && idx == (0, 0, 0) && Valid() && Position() == 0
    {
      this.vol := vol;
      idx := (0, 0, 0);
    }

    /** `next`: the item at step Position(), or None for good once every cell was visited. */
    method Next() returns (r: Option<(Idx, T)>)
      requires Valid()
      modifies this
      ensures Valid()
      ensures old(Position()) < Total(vol.size) ==>
                var i := IdxAt(vol.size, old(Position()));
                r == Some((i, vol.Index(i))) && Position() == old(Position()) + 1
      ensures old(Position()) >= Total(vol.size) ==> r == None && idx == old(idx)
    {
      CursorPosition(vol.size, idx);
      if idx.2 >= vol.size {
        return None;
      }

      var item := vol.Index(idx);
      var itemIdx := idx;
      AdvanceRank(vol.size, idx);

      idx := (idx.0 + 1, idx.1, idx.2);
      if idx.0 >= vol.size {
        idx := (0, idx.1 + 1, idx.2);
      }

      if idx.1 >= vol.size {
        idx := (0, 0, idx.2 + 1);
      }

      return Some((itemIdx, item));
    }
  }

  /** `VolumeIndexIterator`: yields indices in traversal order. */
  class VolumeIndexIterator {
    const size: nat
    var idx: Idx

    ghost predicate Valid()
      reads this
    {
      ValidCursor(size, idx)
    }

    /** Number of steps taken so far. */
    ghost function Position(): nat
      reads this
    {
      Rank(size, idx)
    }

    constructor (size: nat)
      ensures this.size == size && idx == (0, 0, 0) && Valid() && Position() == 0
    {
      this.size := size;
      idx := (0, 0, 0);
    }

    /** `next`: the index at step Position(), or None for good once every cell was visited. */
    method Next() returns (r: Option<Idx>)
      requires Valid()
      modifies this
      ensures Valid()
      ensures old(Position()) < Total(size) ==>
                r == Some(IdxAt(size, old(Position()))) && Position() == old(Position()) + 1
      ensures old(Position()) >= Total(size) ==> r == None && idx == old(idx)
    {
      var indexBefore := idx;
      CursorPosition(size, idx);

      if idx.2 >= size {
        return None;
      }

      AdvanceRank(size, idx);
      idx := (idx.0 + 1, idx.1, idx.2);
      if idx.0 >= size {
        idx := (0, idx.1 + 1, idx.2);
      }

      if idx.1 >= size {
        idx := (0, 0, idx.2 + 1);
      }

      return Some(indexBefore);
    }
  }

  // ---------------------------------------------------------------------------
  // Loops over the iterators

  /** `vol.iter_indices()` run to exhaustion: every cell, in traversal order, then nothing more. */
  method CollectIndices(size: nat) returns (out: seq<Idx>)
    ensures |out| == Total(size)
    ensures forall k :: 0 <= k < |out| ==> out[k] == IdxAt(size, k)
  {
    var it := new VolumeIndexIterator(size);
    out := [];
    while true
      invariant it.Valid() && it.size == size && it.Position() == |out| <= Total(size)
      invariant forall k :: 0 <= k < |out| ==> out[k] == IdxAt(size, k)
      decreases Total(size) - it.Position()
    {
      var next := it.Next();
      if next == None {
        break;
      }
      out := out + [next.value];
    }
  }

  /** `vol.iter()` run to exhaustion: every (index, item) pair, in the same order as `iter_indices`. */
  method CollectItems<T>(vol: Volume<T>) returns (out: seq<(Idx, T)>)
    requires vol.Valid()
    ensures |out| == Total(vol.size)
    ensures forall k :: 0 <= k < |out| ==>
              InBounds(vol.size, out[k].0) && out[k] == (IdxAt(vol.size, k), vol.Index(out[k].0))
  {
    var it := vol.Iter();
    out := [];
    while true
      invariant it.Valid() && it.vol == vol && it.Position() == |out| <= Total(vol.size)
      invariant forall k :: 0 <= k < |out| ==>
                  InBounds(vol.size, out[k].0) && out[k] == (IdxAt(vol.size, k), vol.Index(out[k].0))
      decreases Total(vol.size) - it.Position()
    {
      var next := it.Next();
      if next == None {
        break;
      }
      out := out + [next.value];
    }
  }

  /** The `iter_idx` test: a 2 x 2 x 2 volume is walked x first, then y, then z. */
  method IterIndicesOfSizeTwo() returns (out: seq<Idx>)
    ensures out == [(0, 0, 0), (1, 0, 0), (0, 1, 0), (1, 1, 0),
                    (0, 0, 1), (1, 0, 1), (0, 1, 1), (1, 1, 1)]
  {
    out := CollectIndices(2);
    assert |out| == 8;
  }

  /**
   * The `mut_in_iter` test's loop: walks `iter_indices` and doubles every cell
   * holding 12. Exactly the selected cells change.
   */
  method DoubleTwelves(vol: Volume<int>)
    requires vol.Valid()
    modifies vol.cells
    ensures forall i: Idx :: InBounds(vol.size, i) ==>
              vol.Index(i) == if old(vol.Index(i)) == 12 then 24 else old(vol.Index(i))
  {
    var it := vol.IterIndices();
    IdxAtRankAll(vol.size);
    while true
      invariant it.Valid() && it.size == vol.size && it.Position() <= Total(vol.size)
      invariant forall i: Idx :: InBounds(vol.size, i) ==>
                  vol.Index(i) == if Rank(vol.size, i) < it.Position() && old(vol.Index(i)) == 12
                                  then 24 else old(vol.Index(i))
      decreases Total(vol.size) - it.Position()
    {
      var next := it.Next();
      if next == None {
        break;
      }
      var idx := next.value;
      if vol.Index(idx) == 12 {
        vol.Set(idx, vol.Index(idx) * 2);
      }
    }
  }

  /** The step at which a traversal visits `idx` is the rank of `idx` and of no other cell. */
  lemma RankSingles(size: nat, idx: Idx, k: nat)
    requires k < Total(size) && idx == IdxAt(size, k)
    ensures Rank(size, idx) == k
    ensures forall i: Idx :: InBounds(size, i) && i != idx ==> Rank(size, i) != k
  {
    IdxAtRankAll(size);
  }

  lemma IdxAtRankAll(size: nat)
    ensures forall i: Idx :: InBounds(size, i) ==> IdxAt(size, Rank(size, i)) == i
  {
    forall i: Idx | InBounds(size, i) ensures IdxAt(size, Rank(size, i)) == i {
      IdxAtRank(size, i);
    }
  }
}
