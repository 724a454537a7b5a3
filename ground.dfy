/**
 * `GroundComponent`: a list of terrain chunks on the 32-unit grid, each with a
 * sparse cache of heights and normals at integer lattice points and a few
 * obstacles; the chunks are streamed in and out around a point.
 */
module Ground {
  import opened Wrappers
  import opened Vectors
  import opened ChunkGrid
  import Noise
  import Terrain
  import Rng

  /** NORMAL_OFFSET, MAX_OBSTACLES, MIN/MAX_OBSTACLE_SIZE. */
  const NormalOffset: real := 1.0
  const MaxObstacles: int := 5
  const MinObstacleSize: real := 0.5
  const MaxObstacleSize: int := 3

  datatype Obstacle = Obstacle(position: Vec3, size: Vec3)

  /** What `_getHeightAndNormalAt` returns. */
  datatype HeightNormal = HeightNormal(height: real, normal: Vec3, tangent: Vec3, binormal: Vec3, chunk: Chunk)

  class Chunk {
    const center: Vec3
    /** boundingQuad. */
    const quad: Quad
    var heightMap: map<int, map<int, real>>
    var normalMap: map<int, map<int, Vec3>>
    var obstacles: seq<Obstacle>

    /** The object literal of `_createChunk`, before its caches are filled. */
    constructor(cx: int, cz: int)
      ensures center == Vec3((cx + ChunkOffset) as real, 0.0, (cz + ChunkOffset) as real)
      ensures quad == QuadAt(cx, cz)
      ensures heightMap == map[] && normalMap == map[] && obstacles == []
    {
      center := Vec3((cx + ChunkOffset) as real, 0.0, (cz + ChunkOffset) as real);
      quad := QuadAt(cx, cz);
      heightMap := map[];
      normalMap := map[];
      obstacles := [];
    }

    /** The grid corner that identifies the chunk in `_createChunk`. */
    function Corner(): (int, int) { (quad.left, quad.top) }

    /** The height and normal caches have the same rows and entries. */
    ghost predicate Shaped()
      reads this
    {
      && heightMap.Keys == normalMap.Keys
      && (forall a :: a in heightMap ==> heightMap[a].Keys == normalMap[a].Keys)
    }
  }

  /** The first chunk of `cs` whose box holds (x, z). */
  function FirstCovering(cs: seq<Chunk>, x: real, z: real): (r: Option<Chunk>)
    ensures r.None? <==> forall i :: 0 <= i < |cs| ==> !Covers(cs[i].quad, x, z)
    ensures r.Some? ==> exists i :: 0 <= i < |cs| && cs[i] == r.value && Covers(cs[i].quad, x, z)
                                 && forall j :: 0 <= j < i ==> !Covers(cs[j].quad, x, z)
  {
    if cs == [] then None
    else if Covers(cs[0].quad, x, z) then Some(cs[0])
    else
      var r := FirstCovering(cs[1..], x, z);
      assert r.Some? ==> exists i :: 1 <= i < |cs| && cs[i] == r.value && Covers(cs[i].quad, x, z)
                                     && forall j :: 0 <= j < i ==> !Covers(cs[j].quad, x, z) by {
        if r.Some? {
          var i :| 0 <= i < |cs[1..]| && cs[1..][i] == r.value && Covers(cs[1..][i].quad, x, z)
                   && forall j :: 0 <= j < i ==> !Covers(cs[1..][j].quad, x, z);
          assert cs[i + 1] == r.value;
          forall j | 0 <= j < i + 1 ensures !Covers(cs[j].quad, x, z) {
            if j > 0 { assert cs[j] == cs[1..][j - 1]; }
          }
        }
      }
      r
  }

  /** The chunks the cull keeps: those whose center is not farther than `cullRadius`. */
  function Kept(math: MathLib, cs: seq<Chunk>, center: Vec3, cullRadius: real): (r: seq<Chunk>)
    ensures |r| <= |cs|
  {
    if cs == [] then []
    else
      (if math.Distance(center, cs[0].center) > cullRadius then [] else [cs[0]])
      + Kept(math, cs[1..], center, cullRadius)
  }

  /** The cull keeps exactly the chunks not farther than `cullRadius`, each one taken from `cs`. */
  lemma {:induction false} KeptMembers(math: MathLib, cs: seq<Chunk>, center: Vec3, cullRadius: real)
    ensures forall c :: c in Kept(math, cs, center, cullRadius) ==> c in cs && !(math.Distance(center, c.center) > cullRadius)
    ensures forall i :: 0 <= i < |cs| && !(math.Distance(center, cs[i].center) > cullRadius) ==> cs[i] in Kept(math, cs, center, cullRadius)
  {
    if cs != [] {
      KeptMembers(math, cs[1..], center, cullRadius);
      var r := Kept(math, cs, center, cullRadius);
      var head := if math.Distance(center, cs[0].center) > cullRadius then [] else [cs[0]];
      var tail := Kept(math, cs[1..], center, cullRadius);
      assert r == head + tail;
      forall c | c in r ensures c in cs && !(math.Distance(center, c.center) > cullRadius) {
        if c !in head { assert c in tail; }
      }
      forall i | 0 <= i < |cs| && !(math.Distance(center, cs[i].center) > cullRadius) ensures cs[i] in r {
        if i > 0 { assert cs[i] == cs[1..][i - 1]; }
      }
    }
  }

  /** The cull keeps exactly the near chunks, and each has squared distance at most cullRadius². */
  lemma KeptAreNear(math: MathLib, cs: seq<Chunk>, center: Vec3, cullRadius: real)
    requires math.Valid() && 0.0 <= cullRadius
    ensures var k := Kept(math, cs, center, cullRadius);
      forall i :: 0 <= i < |k| ==> DistSq(center, k[i].center) <= cullRadius * cullRadius
  {
    var k := Kept(math, cs, center, cullRadius);
    KeptMembers(math, cs, center, cullRadius);
    forall i | 0 <= i < |k|
      ensures DistSq(center, k[i].center) <= cullRadius * cullRadius
    {
      assert !(math.Distance(center, k[i].center) > cullRadius);
      math.DistanceCompare(center, k[i].center, cullRadius);
    }
  }

  /** No two chunks share a grid corner. */
  ghost predicate DistinctCorners(cs: seq<Chunk>) {
    forall i, j :: 0 <= i < j < |cs| ==> cs[i].Corner() != cs[j].Corner()
  }

  /** The cull keeps the chunks' corners distinct. */
  lemma {:induction false} KeptDistinct(math: MathLib, cs: seq<Chunk>, center: Vec3, cullRadius: real)
    requires DistinctCorners(cs)
    ensures DistinctCorners(Kept(math, cs, center, cullRadius))
  {
    if cs != [] {
      var tail := Kept(math, cs[1..], center, cullRadius);
      DistinctTail(cs);
      KeptDistinct(math, cs[1..], center, cullRadius);
      KeptMembers(math, cs[1..], center, cullRadius);
      if !(math.Distance(center, cs[0].center) > cullRadius) {
        forall k | 0 <= k < |tail| ensures cs[0].Corner() != tail[k].Corner() {
          assert tail[k] in cs[1..];
          var j :| 0 <= j < |cs[1..]| && cs[1..][j] == tail[k];
          assert cs[j + 1] == tail[k];
        }
        DistinctCons(cs[0], tail);
      }
    }
  }

  lemma DistinctTail(cs: seq<Chunk>)
    requires DistinctCorners(cs) && cs != []
    ensures DistinctCorners(cs[1..])
  {
    forall a, b | 0 <= a < b < |cs[1..]| ensures cs[1..][a].Corner() != cs[1..][b].Corner() {
      assert cs[1..][a] == cs[a + 1] && cs[1..][b] == cs[b + 1];
    }
  }

  lemma DistinctCons(c: Chunk, cs: seq<Chunk>)
    requires DistinctCorners(cs) && forall k :: 0 <= k < |cs| ==> c.Corner() != cs[k].Corner()
    ensures DistinctCorners([c] + cs)
  {
    var r := [c] + cs;
    forall a, b | 0 <= a < b < |r| ensures r[a].Corner() != r[b].Corner() {
      assert r[b] == cs[b - 1];
      if a > 0 { assert r[a] == cs[a - 1]; }
    }
  }

  /** One step of the backward cull: dropping or keeping chunk i extends the kept suffix by one. */
  lemma CullStep(math: MathLib, cs: seq<Chunk>, chunks: seq<Chunk>, i: int, center: Vec3, cullRadius: real)
    requires 0 <= i < |cs| && chunks == cs[..i + 1] + Kept(math, cs[i + 1..], center, cullRadius)
    ensures chunks[i] == cs[i]
    ensures math.Distance(center, cs[i].center) > cullRadius ==>
      chunks[..i] + chunks[i + 1..] == cs[..i] + Kept(math, cs[i..], center, cullRadius)
    ensures !(math.Distance(center, cs[i].center) > cullRadius) ==>
      chunks == cs[..i] + Kept(math, cs[i..], center, cullRadius)
  {
    KeptUnfold(math, cs, i, center, cullRadius);
    Splice(cs, i, Kept(math, cs[i + 1..], center, cullRadius));
  }

  /** The first |k| elements of a sequence that starts with k are all drawn from `from`. */
  lemma PrefixFrom<T>(k: seq<T>, s: seq<T>, from: seq<T>)
    requires k <= s && forall c :: c in k ==> c in from
    ensures forall i :: 0 <= i < |k| ==> s[i] in from
  {
    forall i | 0 <= i < |k|
      ensures s[i] in from
    {
      assert s[i] == k[i];
    }
  }

  /** Removing element i of p[..i + 1] + rest leaves p[..i] + rest; keeping it is p[..i] + [p[i]] + rest. */
  lemma Splice<T>(p: seq<T>, i: int, rest: seq<T>)
    requires 0 <= i < |p|
    ensures var s := p[..i + 1] + rest;
      && s[i] == p[i]
      && s[..i] + s[i + 1..] == p[..i] + rest
      && s == p[..i] + ([p[i]] + rest)
  {
    var s := p[..i + 1] + rest;
    assert s[..i] == p[..i];
    assert s[i + 1..] == rest;
  }

  lemma KeptUnfold(math: MathLib, cs: seq<Chunk>, i: int, center: Vec3, cullRadius: real)
    requires 0 <= i < |cs|
    ensures Kept(math, cs[i..], center, cullRadius) ==
      (if math.Distance(center, cs[i].center) > cullRadius then [] else [cs[i]]) + Kept(math, cs[i + 1..], center, cullRadius)
  {
    assert cs[i..][1..] == cs[i + 1..];
  }

  class GroundComponent {
    /** The simplex-noise primitive and the parameters of the layered noise. */
    const noise2D: (real, real) -> real
    const params: Noise.NoiseParams
    const math: MathLib
    const rng: Rng.Random
    var chunks: seq<Chunk>

    /** The noise height at an integer lattice point. */
    function Heights(): (int, int) -> real {
      (a: int, b: int) => Noise.Height(noise2D, params, a as real, b as real)
    }

    /** What `_getHeightAndNormalAt` computes at (x, z) when every lookup returns the noise height. */
    function TerrainAt(x: real, z: real): Terrain.Shading {
      Terrain.Shade(math, Heights(), x, z)
    }

    /**
     * The normal `_cacheHeightMap` estimates at (x, z): cross products of the
     * differences across four samples one unit away and four samples 0.7 along
     * the diagonals, added and normalised.
     */
    function EstimateNormal(x: real, z: real): Vec3 {
      var d := NormalOffset * 0.7;
      NormalFromSamples(math, x, z,
        Noise.Height(noise2D, params, x, z - NormalOffset), Noise.Height(noise2D, params, x, z + NormalOffset),
        Noise.Height(noise2D, params, x - NormalOffset, z), Noise.Height(noise2D, params, x + NormalOffset, z),
        Noise.Height(noise2D, params, x - d, z - d), Noise.Height(noise2D, params, x + d, z + d),
        Noise.Height(noise2D, params, x - d, z + d), Noise.Height(noise2D, params, x + d, z - d))
    }

    /** Every cached entry holds the noise height and the estimated normal of its key. */
    ghost predicate CacheValid(c: Chunk)
      reads c
    {
      && c.Shaped()
      && (forall a, b :: Entry(c.heightMap, a, b).Some? ==>
            Entry(c.heightMap, a, b).value == Noise.Height(noise2D, params, a as real, b as real))
      && (forall a, b :: Entry(c.normalMap, a, b).Some? ==>
            Entry(c.normalMap, a, b).value == EstimateNormal(a as real, b as real))
    }

    /** The cache holds every lattice point of the chunk's square, edges included. */
    ghost predicate LatticeComplete(c: Chunk)
      reads c
    {
      forall a, b :: c.quad.left <= a <= c.quad.right && c.quad.top <= b <= c.quad.bottom ==>
        Entry(c.heightMap, a, b).Some?
    }

    /** An obstacle of `_spawnObstacles`: on the terrain, inside its chunk, of one of three sizes. */
    ghost predicate ObstacleValid(q: Quad, o: Obstacle) {
      && o.position.x == o.position.x.Floor as real
      && o.position.z == o.position.z.Floor as real
      && (q.left + MaxObstacleSize) as real <= o.position.x <= (q.left + 28) as real
      && (q.top + MaxObstacleSize) as real <= o.position.z <= (q.top + 28) as real
      && o.position.y == TerrainAt(o.position.x, o.position.z).height
      && o.size == Vec3(o.size.x, o.size.x, o.size.x)
      && (o.size.x == 0.5 || o.size.x == 1.5 || o.size.x == 2.5)
    }

    /** The obstacle `_spawnObstacles` builds from offsets dx, dz in [0, 26) and a size step ds in [0, 3). */
    lemma ObstacleFromDraws(q: Quad, dx: int, dz: int, ds: int, o: Obstacle)
      requires 0 <= dx < 26 && 0 <= dz < 26 && 0 <= ds < 3
      requires o.position == Vec3((q.left + MaxObstacleSize + dx) as real, o.position.y, (q.top + MaxObstacleSize + dz) as real)
      requires o.position.y == TerrainAt(o.position.x, o.position.z).height
      requires o.size == Vec3(MinObstacleSize + ds as real, MinObstacleSize + ds as real, MinObstacleSize + ds as real)
      ensures ObstacleValid(q, o)
    {
    }

    ghost predicate ChunkValid(c: Chunk)
      reads c
    {
      && OnGrid(c.quad.left) && OnGrid(c.quad.top)
      && c.quad == QuadAt(c.quad.left, c.quad.top)
      && c.center == Vec3((c.quad.left + ChunkOffset) as real, 0.0, (c.quad.top + ChunkOffset) as real)
      && CacheValid(c)
      && LatticeComplete(c)
      && |c.obstacles| < MaxObstacles
      && (forall i :: 0 <= i < |c.obstacles| ==> ObstacleValid(c.quad, c.obstacles[i]))
    }

    ghost predicate Valid()
      reads this, chunks
    {
      && math.Valid()
      && rng.InUnitInterval()
      && (forall i :: 0 <= i < |chunks| ==> ChunkValid(chunks[i]))
      && DistinctCorners(chunks)
    }

    constructor(noise2D: (real, real) -> real, params: Noise.NoiseParams, math: MathLib, rng: Rng.Random)
      requires math.Valid() && rng.InUnitInterval()
      modifies rng
      ensures Valid()
      ensures this.noise2D == noise2D && this.params == params && this.math == math && this.rng == rng
      ensures |chunks| == 1 && chunks[0].Corner() == (-ChunkOffset, -ChunkOffset)
    {
      this.noise2D := noise2D;
      this.params := params;
      this.math := math;
      this.rng := rng;
      chunks := [];
      new;
      var c := CreateChunk(-ChunkOffset, -ChunkOffset);
    }

    /** `getActiveChunk`: the first chunk whose box holds (x, z), if any. */
    function GetActiveChunk(x: real, z: real): (r: Option<Chunk>)
      reads this
      ensures r.None? <==> forall i :: 0 <= i < |chunks| ==> !Covers(chunks[i].quad, x, z)
      ensures r.Some? ==> r.value in chunks && Covers(r.value.quad, x, z)
    {
      FirstCovering(chunks, x, z)
    }

    /** Resident chunks never overlap, so the chunk holding a point is the one `getActiveChunk` finds. */
    lemma ActiveChunkUnique(c: Chunk, x: real, z: real)
      requires Valid() && c in chunks && Covers(c.quad, x, z)
      ensures GetActiveChunk(x, z) == Some(c)
    {
      var r := GetActiveChunk(x, z).value;
      var i :| 0 <= i < |chunks| && chunks[i] == c;
      var j :| 0 <= j < |chunks| && chunks[j] == r;
      GridSquaresDisjoint(c.quad.left, c.quad.top, r.quad.left, r.quad.top, x, z);
      assert i == j;
    }

    /** `getChunkCenter`: both coordinates are multiples of 32. */
    function GetChunkCenter(x: real, z: real): (r: (int, int))
      ensures r.0 % ChunkSize == 0 && r.1 % ChunkSize == 0
      ensures OnGrid(r.0 - ChunkOffset) && OnGrid(r.1 - ChunkOffset)
    {
      CenterCornerOnGrid(x);
      CenterCornerOnGrid(z);
      (CenterCoord(x), CenterCoord(z))
    }

    /** The noise estimate of the normal points up, with unit length. */
    lemma EstimateNormalUp(x: real, z: real)
      requires math.Valid()
      ensures EstimateNormal(x, z).y > 0.0 && LengthSq(EstimateNormal(x, z)) == 1.0
    {
      var d := NormalOffset * 0.7;
      SamplesNormalUp(math, x, z,
        Noise.Height(noise2D, params, x, z - NormalOffset), Noise.Height(noise2D, params, x, z + NormalOffset),
        Noise.Height(noise2D, params, x - NormalOffset, z), Noise.Height(noise2D, params, x + NormalOffset, z),
        Noise.Height(noise2D, params, x - d, z - d), Noise.Height(noise2D, params, x + d, z + d),
        Noise.Height(noise2D, params, x - d, z + d), Noise.Height(noise2D, params, x + d, z - d));
    }

    /** The normal half of `_cacheHeightMap`: eight calls of the noise function, two cross products. */
    method SampleNormal(x: real, z: real) returns (norm: Vec3)
      ensures norm == EstimateNormal(x, z)
    {
      var d := NormalOffset * 0.7;
      var y1 := Noise.Sample(noise2D, params, x, z - NormalOffset);
      var y2 := Noise.Sample(noise2D, params, x, z + NormalOffset);
      var y3 := Noise.Sample(noise2D, params, x - NormalOffset, z);
      var y4 := Noise.Sample(noise2D, params, x + NormalOffset, z);
      var y5 := Noise.Sample(noise2D, params, x - d, z - d);
      var y6 := Noise.Sample(noise2D, params, x + d, z + d);
      var y7 := Noise.Sample(noise2D, params, x - d, z + d);
      var y8 := Noise.Sample(noise2D, params, x + d, z - d);
      norm := NormalFromSamples(math, x, z, y1, y2, y3, y4, y5, y6, y7, y8);
    }

    /** Writes exactly heightMap[x][z] and normalMap[x][z], creating the row if needed. */
    method CacheHeightMap(chunk: Chunk, x: int, y: real, z: int) returns (norm: Vec3)
      requires chunk.Shaped()
      modifies chunk
      ensures norm == EstimateNormal(x as real, z as real)
      ensures chunk.heightMap == Put(old(chunk.heightMap), x, z, y)
      ensures chunk.normalMap == Put(old(chunk.normalMap), x, z, norm)
      ensures chunk.obstacles == old(chunk.obstacles)
      ensures chunk.Shaped()
    {
      norm := SampleNormal(x as real, z as real);
      var heights := if x in chunk.heightMap then chunk.heightMap[x] else map[];
      var normals := if x in chunk.normalMap then chunk.normalMap[x] else map[];
      chunk.heightMap := chunk.heightMap[x := heights[z := y]];
      chunk.normalMap := chunk.normalMap[x := normals[z := norm]];
    }

    /**
     * `_lookupHeightMap` as intended: the cached height on a hit; on a miss the noise
     * height, which is also cached.
     */
    method LookupHeightMap(chunk: Chunk, x: int, z: int) returns (y: real)
      requires CacheValid(chunk)
      modifies chunk
      ensures y == Noise.Height(noise2D, params, x as real, z as real)
      ensures CacheValid(chunk) && chunk.obstacles == old(chunk.obstacles)
      ensures old(Entry(chunk.heightMap, x, z)).Some? ==> unchanged(chunk)
      ensures chunk.heightMap == Put(old(chunk.heightMap), x, z, y)
    {
      if x in chunk.heightMap && z in chunk.heightMap[x] {
        y := chunk.heightMap[x][z];
        assert Entry(chunk.heightMap, x, z).Some?;
        assert chunk.heightMap == Put(chunk.heightMap, x, z, y) by {
          assert chunk.heightMap[x][z := y] == chunk.heightMap[x];
        }
      } else {
        y := Noise.Sample(noise2D, params, x as real, z as real);
        var norm := CacheHeightMap(chunk, x, y, z);
      }
    }

    /**
     * `_lookupHeightMap` as written: on a miss it caches the noise height and then
     * tests the row it has just created, so it returns nothing.
     */
    method LookupHeightMapAsWritten(chunk: Chunk, x: int, z: int) returns (y: Option<real>)
      requires CacheValid(chunk)
      modifies chunk
      ensures old(Entry(chunk.heightMap, x, z)).Some? ==> y == Some(Noise.Height(noise2D, params, x as real, z as real))
      ensures old(Entry(chunk.heightMap, x, z)).None? ==> y == None
      ensures chunk.heightMap == Put(old(chunk.heightMap), x, z, Noise.Height(noise2D, params, x as real, z as real))
      ensures CacheValid(chunk)
    {
      if x in chunk.heightMap && z in chunk.heightMap[x] {
        y := Some(chunk.heightMap[x][z]);
        assert Entry(chunk.heightMap, x, z).Some?;
        assert chunk.heightMap[x][z := y.value] == chunk.heightMap[x];
      } else {
        var v := Noise.Sample(noise2D, params, x as real, z as real);
        var norm := CacheHeightMap(chunk, x, v, z);
        if x !in chunk.heightMap {
          y := Some(v);
        } else {
          y := None;
        }
      }
    }

    /** The four lattice corners of the cell holding (x, z) are cached. */
    ghost predicate CellCached(c: Chunk, x: real, z: real)
      reads c
    {
      var x1, z1 := x.Floor, z.Floor;
      && Entry(c.heightMap, x1, z1).Some? && Entry(c.heightMap, x1 + 1, z1).Some?
      && Entry(c.heightMap, x1, z1 + 1).Some? && Entry(c.heightMap, x1 + 1, z1 + 1).Some?
    }

    /** A point inside a chunk whose lattice is complete never misses the cache. */
    lemma CoveredCellCached(c: Chunk, x: real, z: real)
      requires LatticeComplete(c) && c.quad == QuadAt(c.quad.left, c.quad.top) && Covers(c.quad, x, z)
      ensures CellCached(c, x, z)
    {
      Terrain.CellOf(x);
      Terrain.CellOf(z);
    }

    /**
     * `_getHeightAndNormalAt` on one chunk: the triangle of the cell, looked up
     * through the cache, normalised and solved as a plane equation.
     */
    method HeightAndNormalIn(chunk: Chunk, x: real, z: real) returns (r: HeightNormal)
      requires CacheValid(chunk) && CellCached(chunk, x, z)
      modifies chunk
      ensures var t := TerrainAt(x, z);
        r == HeightNormal(t.height, t.normal, t.tangent, t.binormal, chunk)
      ensures unchanged(chunk)
    {
      var t := LookupTriangle(chunk, x, z);
      var sh := Terrain.ShadeTriangle(math, t, x, z);
      r := HeightNormal(sh.height, sh.normal, sh.tangent, sh.binormal, chunk);
    }

    /** The triangle holding (x, z), its three heights read through the cache. */
    method LookupTriangle(chunk: Chunk, x: real, z: real) returns (t: Terrain.Triangle)
      requires CacheValid(chunk) && CellCached(chunk, x, z)
      modifies chunk
      ensures t == Terrain.TriangleAt(Heights(), x, z)
      ensures unchanged(chunk)
    {
      Terrain.CellOf(x);
      Terrain.CellOf(z);
      var x1, z1 := x.Floor, z.Floor;
      var x2, z2 := Terrain.FarCorner(x), Terrain.FarCorner(z);
      var xl, zl := x - x1 as real, z - z1 as real;
      if xl >= zl {
        var s1, s2, s3 := LookupVertices(chunk, x1, z1, x2, z1, x2, z2);
        t := Terrain.Triangle(s1, s2, s3, Sub(s1, s2), Sub(s3, s2));
      } else {
        var s1, s2, s3 := LookupVertices(chunk, x2, z2, x1, z2, x1, z1);
        t := Terrain.Triangle(s1, s2, s3, Sub(s2, s1), Sub(s2, s3));
      }
    }

    /** Three vertices of the lattice, heights read through the cache, in order. */
    method LookupVertices(chunk: Chunk, a1: int, b1: int, a2: int, b2: int, a3: int, b3: int)
      returns (s1: Vec3, s2: Vec3, s3: Vec3)
      requires CacheValid(chunk)
      requires Entry(chunk.heightMap, a1, b1).Some? && Entry(chunk.heightMap, a2, b2).Some?
      requires Entry(chunk.heightMap, a3, b3).Some?
      modifies chunk
      ensures s1 == Terrain.Vertex(Heights(), a1, b1)
      ensures s2 == Terrain.Vertex(Heights(), a2, b2)
      ensures s3 == Terrain.Vertex(Heights(), a3, b3)
      ensures unchanged(chunk)
    {
      var h1 := LookupHeightMap(chunk, a1, b1);
      var h2 := LookupHeightMap(chunk, a2, b2);
      var h3 := LookupHeightMap(chunk, a3, b3);
      s1 := Vec3(a1 as real, h1, b1 as real);
      s2 := Vec3(a2 as real, h2, b2 as real);
      s3 := Vec3(a3 as real, h3, b3 as real);
    }

    /** `getHeightAndNormalAt`: the terrain under (x, z), or nothing outside every chunk. */
    method GetHeightAndNormalAt(x: real, z: real) returns (r: Option<HeightNormal>)
      requires Valid()
      modifies set c | c in chunks
      ensures Valid() && unchanged(set c | c in chunks)
      ensures r.None? <==> forall i :: 0 <= i < |chunks| ==> !Covers(chunks[i].quad, x, z)
      ensures r.Some? ==> r.value.chunk in chunks && Covers(r.value.chunk.quad, x, z)
      ensures r.Some? ==> var t := TerrainAt(x, z);
        r.value == HeightNormal(t.height, t.normal, t.tangent, t.binormal, r.value.chunk)
    {
      var active := GetActiveChunk(x, z);
      if active.None? {
        return None;
      }
      var chunk := active.value;
      CoveredCellCached(chunk, x, z);
      var hn := HeightAndNormalIn(chunk, x, z);
      r := Some(hn);
    }

    /** `_createHeightMap`: caches the noise height at every vertex of the chunk's 33 x 33 lattice. */
    method CreateHeightMap(chunk: Chunk)
      requires CacheValid(chunk) && chunk.quad == QuadAt(chunk.quad.left, chunk.quad.top)
      modifies chunk
      ensures CacheValid(chunk) && LatticeComplete(chunk)
      ensures chunk.obstacles == old(chunk.obstacles)
    {
      var cx, cz := chunk.quad.left + ChunkOffset, chunk.quad.top + ChunkOffset;
      var j := -ChunkOffset;
      while j <= ChunkOffset
        invariant -ChunkOffset <= j <= ChunkOffset + 1
        invariant CacheValid(chunk) && chunk.obstacles == old(chunk.obstacles)
        invariant forall a, b :: cx - ChunkOffset <= a <= cx + ChunkOffset && cz - ChunkOffset <= b < cz + j ==>
          Entry(chunk.heightMap, a, b).Some?
      {
        var i := -ChunkOffset;
        while i <= ChunkOffset
          invariant -ChunkOffset <= i <= ChunkOffset + 1
          invariant CacheValid(chunk) && chunk.obstacles == old(chunk.obstacles)
          invariant forall a, b :: cx - ChunkOffset <= a <= cx + ChunkOffset && cz - ChunkOffset <= b < cz + j ==>
            Entry(chunk.heightMap, a, b).Some?
          invariant forall a, b :: cx - ChunkOffset <= a < cx + i && b == cz + j ==> Entry(chunk.heightMap, a, b).Some?
        {
          var x, z := cx + i, cz + j;
          var y := Noise.Sample(noise2D, params, x as real, z as real);
          var norm := CacheHeightMap(chunk, x, y, z);
          i := i + 1;
        }
        j := j + 1;
      }
    }

    /**
     * `_spawnObstacles`: floor(5r) obstacles, each at an integer point 3 to 28 units
     * into the chunk and of size 0.5, 1.5 or 2.5, standing on the terrain.
     */
    method SpawnObstacles(chunk: Chunk)
      requires rng.InUnitInterval() && CacheValid(chunk) && LatticeComplete(chunk)
      requires chunk.quad == QuadAt(chunk.quad.left, chunk.quad.top)
      modifies chunk, rng
      ensures chunk.heightMap == old(chunk.heightMap) && chunk.normalMap == old(chunk.normalMap)
      ensures |old(chunk.obstacles)| <= |chunk.obstacles| < |old(chunk.obstacles)| + MaxObstacles
      ensures chunk.obstacles[..|old(chunk.obstacles)|] == old(chunk.obstacles)
      ensures forall i :: |old(chunk.obstacles)| <= i < |chunk.obstacles| ==> ObstacleValid(chunk.quad, chunk.obstacles[i])
    {
      var r := rng.Next();
      var count := Rng.FloorScaled(r, MaxObstacles as real);
      var i := 0;
      while i < count
        invariant 0 <= i <= count
        invariant chunk.heightMap == old(chunk.heightMap) && chunk.normalMap == old(chunk.normalMap)
        invariant |chunk.obstacles| == |old(chunk.obstacles)| + i
        invariant chunk.obstacles[..|old(chunk.obstacles)|] == old(chunk.obstacles)
        invariant forall k :: |old(chunk.obstacles)| <= k < |chunk.obstacles| ==> ObstacleValid(chunk.quad, chunk.obstacles[k])
      {
        var o := PlaceObstacle(chunk);
        chunk.obstacles := chunk.obstacles + [o];
        i := i + 1;
      }
    }

    /** One obstacle of `_spawnObstacles`: three draws, then the terrain height at the chosen point. */
    method PlaceObstacle(chunk: Chunk) returns (o: Obstacle)
      requires rng.InUnitInterval() && CacheValid(chunk) && LatticeComplete(chunk)
      requires chunk.quad == QuadAt(chunk.quad.left, chunk.quad.top)
      modifies chunk, rng
      ensures unchanged(chunk)
      ensures ObstacleValid(chunk.quad, o)
    {
      var rx := rng.Next();
      var dx := Rng.FloorScaled(rx, (ChunkSize - 2 * MaxObstacleSize) as real);
      var x := chunk.quad.left + MaxObstacleSize + dx;
      var rz := rng.Next();
      var dz := Rng.FloorScaled(rz, (ChunkSize - 2 * MaxObstacleSize) as real);
      var z := chunk.quad.top + MaxObstacleSize + dz;
      var rs := rng.Next();
      var ds := Rng.FloorScaled(rs, MaxObstacleSize as real - MinObstacleSize);
      var scale := MinObstacleSize + ds as real;
      assert 0 <= dx < 26 && 0 <= dz < 26 && 0 <= ds < 3;
      assert Covers(chunk.quad, x as real, z as real);
      CoveredCellCached(chunk, x as real, z as real);
      var hn := HeightAndNormalIn(chunk, x as real, z as real);
      o := Obstacle(Vec3(x as real, hn.height, z as real), Vec3(scale, scale, scale));
      ObstacleFromDraws(chunk.quad, dx, dz, ds, o);
    }

    /**
     * `_createChunk`: returns the resident chunk with corner (cx, cz) if there is
     * one; otherwise builds, fills and appends a new one.
     */
    method CreateChunk(cx: int, cz: int) returns (chunk: Chunk)
      requires Valid() && OnGrid(cx) && OnGrid(cz)
      modifies this, rng
      ensures Valid()
      ensures chunk in chunks && chunk.Corner() == (cx, cz)
      ensures (exists c :: c in old(chunks) && c.Corner() == (cx, cz)) ==>
        chunks == old(chunks) && rng.cursor == old(rng.cursor)
      ensures (forall c :: c in old(chunks) ==> c.Corner() != (cx, cz)) ==>
        && chunks == old(chunks) + [chunk] && fresh(chunk)
        && chunk.center == Vec3((cx + ChunkOffset) as real, 0.0, (cz + ChunkOffset) as real)
        && chunk.quad == QuadAt(cx, cz)
    {
      var i := 0;
      while i < |chunks|
        invariant 0 <= i <= |chunks|
        invariant forall k :: 0 <= k < i ==> chunks[k].Corner() != (cx, cz)
      {
        if chunks[i].quad.left == cx && chunks[i].quad.top == cz {
          return chunks[i];
        }
        i := i + 1;
      }
      chunk := new Chunk(cx, cz);
      CreateHeightMap(chunk);
      SpawnObstacles(chunk);
      chunks := chunks + [chunk];
    }

    /**
     * One probe of `ensureChunks`: when no chunk holds (px, pz), the chunk on the
     * square `getChunkCenter` names is created, unless it is already resident.
     */
    method Probe(px: real, pz: real)
      requires Valid()
      modifies this, rng
      ensures Valid()
      ensures Provides(chunks, px, pz)
      ensures old(GetActiveChunk(px, pz)).None? ==> exists c :: c in chunks && c.Corner() == SnapCorner(px, pz)
      ensures old(chunks) <= chunks && |chunks| <= |old(chunks)| + 1
      ensures forall i :: |old(chunks)| <= i < |chunks| ==> fresh(chunks[i])
      ensures |chunks| > |old(chunks)| ==> chunks[|old(chunks)|].Corner() == SnapCorner(px, pz)
      ensures old(GetActiveChunk(px, pz)).None? && (forall c :: c in old(chunks) ==> c.Corner() != SnapCorner(px, pz)) ==>
        |chunks| == |old(chunks)| + 1
      ensures !(old(GetActiveChunk(px, pz)).None? && (forall c :: c in old(chunks) ==> c.Corner() != SnapCorner(px, pz))) ==>
        chunks == old(chunks) && rng.cursor == old(rng.cursor)
      ensures Provides(old(chunks), px, pz) <==> chunks == old(chunks)
      ensures Provides(old(chunks), px, pz) ==> rng.cursor == old(rng.cursor)
    {
      var active := GetActiveChunk(px, pz);
      if active.None? {
        var center := GetChunkCenter(px, pz);
        var c := CreateChunk(center.0 - ChunkOffset, center.1 - ChunkOffset);
      } else {
        assert Covers(active.value.quad, px, pz);
      }
    }

    /** The cull of `ensureChunks`: a backward loop that splices out far chunks. */
    method Cull(center: Vec3, cullRadius: real)
      modifies this
      ensures chunks == Kept(math, old(chunks), center, cullRadius)
    {
      ghost var cs := chunks;
      var i := |chunks| - 1;
      while i >= 0
        invariant -1 <= i < |cs|
        invariant chunks == cs[..i + 1] + Kept(math, cs[i + 1..], center, cullRadius)
      {
        CullStep(math, cs, chunks, i, center, cullRadius);
        if math.Distance(center, chunks[i].center) > cullRadius {
          chunks := chunks[..i] + chunks[i + 1..];
        }
        i := i - 1;
      }
      assert cs[0..] == cs;
    }

    /** Every chunk the cull keeps was valid before it. */
    lemma KeptValid(cs: seq<Chunk>, center: Vec3, cullRadius: real)
      requires forall i :: 0 <= i < |cs| ==> ChunkValid(cs[i])
      requires DistinctCorners(cs)
      ensures var k := Kept(math, cs, center, cullRadius);
        (forall i :: 0 <= i < |k| ==> ChunkValid(k[i])) && DistinctCorners(k)
    {
      KeptDistinct(math, cs, center, cullRadius);
      KeptMembers(math, cs, center, cullRadius);
      var k := Kept(math, cs, center, cullRadius);
      forall i | 0 <= i < |k| ensures ChunkValid(k[i]) {
        assert k[i] in k;
        var j :| 0 <= j < |cs| && cs[j] == k[i];
      }
    }

    /**
     * `ensureChunks`: drops the chunks farther than `cullRadius` from (x, 0, z),
     * then probes four points at `radius` and four at 0.7·radius on the diagonals.
     * Afterwards every probe point lies in a chunk or has its snapped chunk resident.
     */
    method EnsureChunks(x: real, z: real, radius: real, cullRadius: real)
      requires Valid()
      modifies this, rng
      ensures Valid()
      ensures var k := Kept(math, old(chunks), Vec3(x, 0.0, z), cullRadius);
        && k <= chunks && |chunks| <= |k| + 8
        && forall i :: |k| <= i < |chunks| ==> fresh(chunks[i])
      ensures forall c :: c in chunks ==> c in old(chunks) || fresh(c)
      ensures ProvidesAll(chunks, ProbePoints(x, z, radius))
      ensures SnappedFrom(chunks, |Kept(math, old(chunks), Vec3(x, 0.0, z), cullRadius)|, ProbePoints(x, z, radius))
      ensures NeededFrom(chunks, |Kept(math, old(chunks), Vec3(x, 0.0, z), cullRadius)|, ProbePoints(x, z, radius))
      ensures var k := Kept(math, old(chunks), Vec3(x, 0.0, z), cullRadius);
        ProvidesAll(k, ProbePoints(x, z, radius)) ==> chunks == k && rng.cursor == old(rng.cursor)
    {
      ghost var before := chunks;
      Cull(Vec3(x, 0.0, z), cullRadius);
      KeptValid(before, Vec3(x, 0.0, z), cullRadius);
      ProbeAll(ProbePoints(x, z, radius));
      ghost var k := Kept(math, before, Vec3(x, 0.0, z), cullRadius);
      KeptMembers(math, before, Vec3(x, 0.0, z), cullRadius);
      PrefixFrom(k, chunks, before);
    }

    /**
     * The probes of `ensureChunks`, one point after the other: each point ends up
     * provided for, and every chunk added is the snapped chunk of a point that
     * nothing provided for when it was probed; when every point is provided for
     * already, nothing is created and no draw is used.
     */
    method ProbeAll(points: seq<(real, real)>)
      requires Valid()
      modifies this, rng
      ensures Valid() && old(chunks) <= chunks && |chunks| <= |old(chunks)| + |points|
      ensures forall i :: |old(chunks)| <= i < |chunks| ==> fresh(chunks[i])
      ensures ProvidesAll(chunks, points) && SnappedFrom(chunks, |old(chunks)|, points)
      ensures NeededFrom(chunks, |old(chunks)|, points)
      ensures ProvidesAll(old(chunks), points) ==> chunks == old(chunks) && rng.cursor == old(rng.cursor)
    {
      var n := 0;
      while n < |points|
        invariant 0 <= n <= |points|
        invariant Valid() && old(chunks) <= chunks && |chunks| <= |old(chunks)| + n
        invariant forall i :: |old(chunks)| <= i < |chunks| ==> fresh(chunks[i])
        invariant ProvidesAll(chunks, points[..n]) && SnappedFrom(chunks, |old(chunks)|, points[..n])
        invariant NeededFrom(chunks, |old(chunks)|, points[..n])
        invariant ProvidesAll(old(chunks), points) ==> chunks == old(chunks) && rng.cursor == old(rng.cursor)
      {
        ProbeNext(old(chunks), old(rng.cursor), points, n);
        n := n + 1;
      }
      assert points[..n] == points;
    }

    /** Probe n of the loop of `ensureChunks`, keeping the loop's facts about the points before it. */
    method ProbeNext(ghost cs0: seq<Chunk>, ghost cursor0: nat, points: seq<(real, real)>, n: int)
      requires Valid() && 0 <= n < |points| && cs0 <= chunks
      requires ProvidesAll(chunks, points[..n]) && SnappedFrom(chunks, |cs0|, points[..n])
      requires NeededFrom(chunks, |cs0|, points[..n])
      requires ProvidesAll(cs0, points) ==> chunks == cs0 && rng.cursor == cursor0
      modifies this, rng
      ensures Valid() && old(chunks) <= chunks && |chunks| <= |old(chunks)| + 1
      ensures forall i :: |old(chunks)| <= i < |chunks| ==> fresh(chunks[i])
      ensures ProvidesAll(chunks, points[..n + 1]) && SnappedFrom(chunks, |cs0|, points[..n + 1])
      ensures NeededFrom(chunks, |cs0|, points[..n + 1])
      ensures ProvidesAll(cs0, points) ==> chunks == cs0 && rng.cursor == cursor0
    {
      ghost var before := chunks;
      Probe(points[n].0, points[n].1);
      ProbeStep(cs0, before, chunks, points, n);
      NeededStep(cs0, before, chunks, points, n);
    }
  }

  /** The eight probe points of `ensureChunks`, in the order it tests them. */
  function ProbePoints(x: real, z: real, radius: real): (points: seq<(real, real)>)
    ensures |points| == 8
  {
    var d := radius * 0.7;
    [(x - radius, z), (x + radius, z), (x, z - radius), (x, z + radius),
     (x - d, z - d), (x + d, z + d), (x + d, z - d), (x - d, z + d)]
  }

  /** The corner of the square `getChunkCenter` names for (px, pz), which `_createChunk` is given. */
  function SnapCorner(px: real, pz: real): (int, int) {
    (CenterCoord(px) - ChunkOffset, CenterCoord(pz) - ChunkOffset)
  }

  /** A probe at (px, pz) is provided for: some chunk holds it, or its snapped chunk is resident. */
  ghost predicate Provides(cs: seq<Chunk>, px: real, pz: real) {
    exists c :: c in cs && (Covers(c.quad, px, pz) || c.Corner() == SnapCorner(px, pz))
  }

  /** Every probe point of `points` is provided for. */
  ghost predicate ProvidesAll(cs: seq<Chunk>, points: seq<(real, real)>) {
    forall j :: 0 <= j < |points| ==> Provides(cs, points[j].0, points[j].1)
  }

  /** The snapped corners of `points`, in order. */
  function SnapCorners(points: seq<(real, real)>): (r: seq<(int, int)>)
    ensures |r| == |points|
    ensures forall j :: 0 <= j < |points| ==> r[j] == SnapCorner(points[j].0, points[j].1)
  {
    if points == [] then []
    else SnapCorners(points[..|points| - 1]) + [SnapCorner(points[|points| - 1].0, points[|points| - 1].1)]
  }

  /** Every chunk of `cs` from index `from` on is the snapped chunk of one of `points`. */
  ghost predicate SnappedFrom(cs: seq<Chunk>, from: int, points: seq<(real, real)>) {
    forall i :: 0 <= from <= i < |cs| ==> cs[i].Corner() in SnapCorners(points)
  }

  /**
   * Every chunk of `cs` from index `from` on was created for one of `points`
   * that no chunk before it provided for: `_createChunk` is called only when
   * `getActiveChunk` finds nothing, and it appends only a corner not yet resident.
   */
  ghost predicate NeededFrom(cs: seq<Chunk>, from: int, points: seq<(real, real)>) {
    forall i :: 0 <= from <= i < |cs| ==> NeededAt(cs, i, points)
  }

  /** Chunk i of `cs` is the snapped chunk of a point of `points` that the chunks before it did not provide for. */
  ghost predicate NeededAt(cs: seq<Chunk>, i: int, points: seq<(real, real)>)
    requires 0 <= i < |cs|
  {
    exists j :: 0 <= j < |points| && NeededFor(cs[..i], cs[i], points[j])
  }

  /** Chunk c was created for point p: nothing in `before` provided for p, and c has its snapped corner. */
  ghost predicate NeededFor(before: seq<Chunk>, c: Chunk, p: (real, real)) {
    !Provides(before, p.0, p.1) && c.Corner() == SnapCorner(p.0, p.1)
  }

  /** A chunk appended for point p, which nothing provided for, keeps every added chunk needed. */
  lemma NeededStep(cs0: seq<Chunk>, before: seq<Chunk>, after: seq<Chunk>, points: seq<(real, real)>, n: int)
    requires 0 <= n < |points| && cs0 <= before <= after && |after| <= |before| + 1
    requires NeededFrom(before, |cs0|, points[..n])
    requires |after| > |before| ==> NeededFor(before, after[|before|], points[n])
    ensures NeededFrom(after, |cs0|, points[..n + 1])
  {
    var ps, p, ps' := points[..n], points[n], points[..n + 1];
    assert ps' == ps + [p];
    forall i | 0 <= |cs0| <= i < |after|
      ensures NeededAt(after, i, ps')
    {
      assert after[..i] == before[..i];
      if i < |before| {
        assert NeededAt(before, i, ps);
        var j :| 0 <= j < |ps| && NeededFor(before[..i], before[i], ps[j]);
        assert ps'[j] == ps[j] && after[i] == before[i];
      } else {
        assert before[..i] == before && ps'[|ps|] == p;
      }
    }
  }

  /**
   * One probe in the loop of `ensureChunks`: the earlier points stay provided
   * for, since chunks are only appended, and the chunk added, if any, is the
   * snapped chunk of the new point.
   */
  lemma ProbeStep(cs0: seq<Chunk>, before: seq<Chunk>, after: seq<Chunk>, points: seq<(real, real)>, n: int)
    requires 0 <= n < |points| && cs0 <= before <= after && |after| <= |before| + 1
    requires ProvidesAll(before, points[..n]) && SnappedFrom(before, |cs0|, points[..n])
    requires Provides(after, points[n].0, points[n].1)
    requires |after| > |before| ==> after[|before|].Corner() == SnapCorner(points[n].0, points[n].1)
    ensures ProvidesAll(after, points[..n + 1]) && SnappedFrom(after, |cs0|, points[..n + 1])
  {
    ProvidesStep(before, after, points[..n], points[n]);
    assert points[..n + 1] == points[..n] + [points[n]];
    SnappedStep(cs0, before, after, points[..n], points[n]);
  }

  /** A point provided for stays provided for when chunks are appended. */
  lemma ProvidesStep(before: seq<Chunk>, after: seq<Chunk>, ps: seq<(real, real)>, p: (real, real))
    requires before <= after && ProvidesAll(before, ps) && Provides(after, p.0, p.1)
    ensures ProvidesAll(after, ps + [p])
  {
    var ps' := ps + [p];
    forall j | 0 <= j < |ps'|
      ensures Provides(after, ps'[j].0, ps'[j].1)
    {
      if j < |ps| {
        var q := ps[j];
        assert ps'[j] == q;
        assert Provides(before, q.0, q.1);
        var c :| c in before && (Covers(c.quad, q.0, q.1) || c.Corner() == SnapCorner(q.0, q.1));
        assert c in after;
      }
    }
  }

  /** A chunk appended for point p is the snapped chunk of one of the points so far. */
  lemma SnappedStep(cs0: seq<Chunk>, before: seq<Chunk>, after: seq<Chunk>, ps: seq<(real, real)>, p: (real, real))
    requires cs0 <= before <= after && |after| <= |before| + 1
    requires SnappedFrom(before, |cs0|, ps)
    requires |after| > |before| ==> after[|before|].Corner() == SnapCorner(p.0, p.1)
    ensures SnappedFrom(after, |cs0|, ps + [p])
  {
    assert (ps + [p])[..|ps|] == ps;
    assert SnapCorners(ps + [p]) == SnapCorners(ps) + [SnapCorner(p.0, p.1)];
    forall i | |cs0| <= i < |after|
      ensures after[i].Corner() in SnapCorners(ps + [p])
    {
      if i < |before| {
        assert after[i] == before[i];
      }
    }
  }

  /**
   * The normal estimate from the eight samples around (x, z): heights y1..y4 one
   * unit away along -z, +z, -x, +x, and y5..y8 at 0.7 along the diagonals
   * (-,-), (+,+), (-,+), (+,-).
   */
  function NormalFromSamples(math: MathLib, x: real, z: real,
                             y1: real, y2: real, y3: real, y4: real,
                             y5: real, y6: real, y7: real, y8: real): Vec3
  {
    var d := NormalOffset * 0.7;
    var s1 := Vec3(x, y1, z - NormalOffset);
    var s2 := Vec3(x, y2, z + NormalOffset);
    var s3 := Vec3(x - NormalOffset, y3, z);
    var s4 := Vec3(x + NormalOffset, y4, z);
    var s5 := Vec3(x - d, y5, z - d);
    var s6 := Vec3(x + d, y6, z + d);
    var s7 := Vec3(x - d, y7, z + d);
    var s8 := Vec3(x + d, y8, z - d);
    math.Normalize(Add(Cross(Sub(s2, s1), Sub(s4, s3)), Cross(Sub(s6, s5), Sub(s8, s7))))
  }

  /** Whatever the samples, the estimate points up with unit length: its raw y is 2·2 + 2·1.4·1.4 = 7.92. */
  lemma SamplesNormalUp(math: MathLib, x: real, z: real,
                        y1: real, y2: real, y3: real, y4: real,
                        y5: real, y6: real, y7: real, y8: real)
    requires math.Valid()
    ensures var n := NormalFromSamples(math, x, z, y1, y2, y3, y4, y5, y6, y7, y8);
      n.y > 0.0 && LengthSq(n) == 1.0
  {
    var d := NormalOffset * 0.7;
    var v := Add(Cross(Sub(Vec3(x, y2, z + NormalOffset), Vec3(x, y1, z - NormalOffset)),
                       Sub(Vec3(x + NormalOffset, y4, z), Vec3(x - NormalOffset, y3, z))),
                 Cross(Sub(Vec3(x + d, y6, z + d), Vec3(x - d, y5, z - d)),
                       Sub(Vec3(x + d, y8, z - d), Vec3(x - d, y7, z + d))));
    assert v.y == 7.92;
    UpNormalized(math, v);
  }

  /** A vector whose y is 7.92 normalises to an upward unit vector. */
  lemma UpNormalized(math: MathLib, v: Vec3)
    requires math.Valid() && v.y == 7.92
    ensures math.Normalize(v).y > 0.0 && LengthSq(math.Normalize(v)) == 1.0
  {
    assert LengthSq(v) > 0.0 by {
      assert v.x * v.x >= 0.0 && v.z * v.z >= 0.0;
    }
    math.InvLengthPositive(v);
    math.NormalizeUnit(v);
  }
}
