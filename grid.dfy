/**
 * The pure geometry of the ground's chunk store: chunk squares on a 32-unit grid,
 * the point-in-chunk test `getActiveChunk` uses, the grid snapping of
 * `getChunkCenter`, and the nested sparse maps that hold a chunk's height and
 * normal caches (`heightMap[x][z]`).
 */
module ChunkGrid {
  import opened Wrappers
  import Terrain

  /** CHUNKSIZE: a chunk's side; CHUNK_OFFSET: half of it. */
  const ChunkSize: int := 32
  const ChunkOffset: int := 16

  /** A chunk's `boundingQuad`, stored (top, right, bottom, left). */
  datatype Quad = Quad(top: int, right: int, bottom: int, left: int)

  /** The quad `_createChunk` builds for the corner (cx, cz). */
  function QuadAt(cx: int, cz: int): Quad
  {
    Quad(cz, cx + ChunkSize, cz + ChunkSize, cx)
  }

  /** The half-open box test of `getActiveChunk`: [left, right) x [top, bottom). */
  predicate Covers(q: Quad, x: real, z: real) {
    q.left as real <= x < q.right as real && q.top as real <= z < q.bottom as real
  }

  /** A corner on the chunk grid, congruent to -16 modulo 32 (the initial chunk's corner). */
  predicate OnGrid(c: int) { c % ChunkSize == ChunkOffset }

  /** Two grid squares that share a point are the same square. */
  lemma {:induction false} GridSquaresDisjoint(cx1: int, cz1: int, cx2: int, cz2: int, x: real, z: real)
    requires OnGrid(cx1) && OnGrid(cz1) && OnGrid(cx2) && OnGrid(cz2)
    requires Covers(QuadAt(cx1, cz1), x, z) && Covers(QuadAt(cx2, cz2), x, z)
    ensures cx1 == cx2 && cz1 == cz2
  {
    SameResidueClose(cx1, cx2);
    SameResidueClose(cz1, cz2);
  }

  lemma SameResidueClose(a: int, b: int)
    requires OnGrid(a) && OnGrid(b) && -ChunkSize < a - b < ChunkSize
    ensures a == b
  {
    var qa, qb := a / ChunkSize, b / ChunkSize;
    assert a == qa * ChunkSize + ChunkOffset && b == qb * ChunkSize + ChunkOffset;
    assert a - b == (qa - qb) * ChunkSize;
  }

  /** JavaScript's rounding away from zero in `getChunkCenter`: floor below zero, ceil otherwise. */
  function RoundAway(x: real): int {
    if x < 0.0 then x.Floor else Terrain.Ceil(x)
  }

  /** One coordinate of `getChunkCenter`: floor((round(x) + 16) / 32) * 32. */
  function CenterCoord(x: real): (c: int)
    ensures c % ChunkSize == 0
    ensures c - ChunkOffset <= RoundAway(x) < c + ChunkOffset
  {
    ((RoundAway(x) + ChunkOffset) / ChunkSize) * ChunkSize
  }

  /** The corner of the grid square `getChunkCenter` names is on the grid. */
  lemma CenterCornerOnGrid(x: real)
    ensures OnGrid(CenterCoord(x) - ChunkOffset)
  {}

  /** RoundAway moves a coordinate by less than one, and not at all on integers. */
  lemma RoundAwayClose(x: real)
    ensures x - 1.0 < RoundAway(x) as real <= x || x <= RoundAway(x) as real < x + 1.0
    ensures x.Floor as real == x ==> RoundAway(x) as real == x
  {
    Terrain.CellOf(x);
    assert x.Floor as real == x ==> (-x).Floor == -x.Floor;
    assert x.Floor as real != x ==> (-x).Floor == -x.Floor - 1;
  }

  /**
   * For a negative or integral coordinate, the square `getChunkCenter` names
   * contains the coordinate itself.
   */
  lemma CenterContains(x: real)
    requires x < 0.0 || x.Floor as real == x
    ensures (CenterCoord(x) - ChunkOffset) as real <= x < (CenterCoord(x) + ChunkOffset) as real
  {
    RoundAwayClose(x);
    Terrain.CellOf(x);
  }

  /**
   * For a positive non-integral coordinate it may not: 15.5 rounds up to 16 and
   * snaps to the square [16, 48), which does not hold 15.5.
   */
  lemma CenterMissesExample()
    ensures CenterCoord(15.5) == 32
    ensures !((CenterCoord(15.5) - ChunkOffset) as real <= 15.5)
  {
    assert (-15.5).Floor == -16;
  }

  /** `heightMap[a][b]`, absent when the row or the entry is missing. */
  function Entry<T>(m: map<int, map<int, T>>, a: int, b: int): Option<T>
  {
    if a in m && b in m[a] then Some(m[a][b]) else None
  }

  /** `m[x][z] = v`, creating row x when it is missing. */
  function Put<T>(m: map<int, map<int, T>>, x: int, z: int, v: T): (r: map<int, map<int, T>>)
    ensures Entry(r, x, z) == Some(v)
    ensures forall a, b :: (a != x || b != z) ==> Entry(r, a, b) == Entry(m, a, b)
    ensures r.Keys == m.Keys + {x}
  {
    var row := if x in m then m[x] else map[];
    m[x := row[z := v]]
  }
}
