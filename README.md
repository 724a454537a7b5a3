# block-explorer core in Dafny

This project models the simulation core of block-explorer. Block-explorer is a browser game: a rover drives over endless procedurally generated terrain and collects herds of specimens. Three parts are modelled.

- **The ground** (`GroundComponent`, src/components/ground.js).
  - It is a list of square 32-unit chunks on a fixed grid, each created at most once per grid corner.
  - Each chunk holds a sparse cache of noise heights and normals, and a few obstacles.
  - Point lookup (`getActiveChunk`) and grid snapping (`getChunkCenter`) are modelled.
  - So is cull-then-probe streaming around the rover (`ensureChunks`).
  - So is the height and normal under a point (`_getHeightAndNormalAt`): the point's triangle in a 1×1 lattice cell, solved as a plane equation.
- **The specimen life cycle** (`SpecimenSystem`, `SpecimenComponent`, `ScoreComponent`).
  - Herds are spawned around the rover up to a population cap.
  - On each tick every specimen either wanders, panics away from the rover, is captured or is despawned.
  - A captured specimen bumps the score once, then shrinks until it is removed.
- **The rover tick** (`RoverSystem.simulate`, `RoverComponent`).
  - Boost fuel, turning and tilt.
  - Gravity, ground reaction, thrust and friction.
  - The speed cap and the idle stop.
  - Obstacle bounces and ground contact.

## How the model is built

- **Real arithmetic.** Vectors are `real` triples (module `Vectors`).
- **gl-matrix.** Polynomial routines are written out: add, sub, scale, dot, cross, `quat.mul` and `vec3.transformQuat`.
  - Square root, cosine and sine are supplied in a `MathLib`. They are constrained only by `MathLib.Valid`: sqrt is the non-negative root, and cos² + sin² = 1.
  - `quat.rotateY`, `quat.setAxes` and `quat.slerp` are uninterpreted functions in the same `MathLib`.
- **Randomness.** `Math.random` is a `Rng.Random` object. It holds a stream of draws in [0, 1) and a cursor, so every call site's draw is named exactly. The ground and the herd spawner share one stream.
- **Noise.** Simplex noise (`noise2D`) is an uninterpreted function parameter.
- **Maps.** JavaScript `Map`s keep insertion order. They are `OrderedMaps.OrderedMap` values: an order sequence plus a map.
- **Imperative parts stay imperative.** These are classes whose methods modify their fields, with loops proved by invariants:
  - the chunk list, the caches, the obstacle loop and the backward cull splice;
  - the noise accumulation loop;
  - the spawn loop, the update loop, the shrink loop and the removal loop;
  - the rover tick.
  Each method states its result or new state through functions and predicates of the old state and its inputs. Examples are `Ground.Kept`, `Noise.Layers`, `DriveVelocity`, `Turned`, `TurningFor`, `Bounces`, `Rest`, `Wandered`, `StepTo`, `TargetAfter`, `OnTerrain`, `Around`, `InAnnulus` and `Aged`.
  Lemmas prove the properties of those functions. A few methods (`Capture`, `AddSpecimen`, `Remove`) state their outcome directly.
- **The specimen system's invariant.** `SpecimenSim.SpecimenSystem.Valid` makes the capture state machine explicit.
  - A ghost sequence `bumped` records every entity that bumped the score.
  - `Ledger` says four things. `bumped` has no duplicates. The capturing entities are live. A live entity outside the tick's removal list has been bumped exactly when it is capturing. None of the removal list is capturing.
  - A ghost sequence `worth` holds the value each of those bumps added. `Tally` ties each entry to its entity's specimen, and `Scored` says the score's recorded bumps are exactly the bumps from before the system followed by `worth`.
  - Every operation keeps `Valid`, and a tick only appends to `bumped` and `worth`. Since `bumped` has no duplicates and the score's bumps follow it entry by entry, no specimen bumps the score twice.

## Model

| member | source | states |
|---|---|---|
| ChunkGrid.GridSquaresDisjoint | src/components/ground.js:135-145 | Two grid squares whose half-open boxes share a point have the same corner, so on-grid chunks never overlap |
| ChunkGrid.CenterCoord | src/components/ground.js:149-150 | Each coordinate `getChunkCenter` returns is a multiple of 32, and the rounded input lies within 16 of it (in [c − 16, c + 16)) |
| ChunkGrid.CenterCornerOnGrid | src/components/ground.js:149-150 | The corner center − 16 is congruent to −16 modulo 32, the same grid as the first chunk |
| ChunkGrid.RoundAwayClose | src/components/ground.js:149 | Rounding away from zero moves a coordinate by less than 1, and not at all for an integer |
| ChunkGrid.CenterContains | src/components/ground.js:147-152 | For a negative or integral coordinate, the square `getChunkCenter` names contains that coordinate |
| ChunkGrid.CenterMissesExample | src/components/ground.js:149 | For 15.5 the snapped center is 32, and the square [16, 48) does not contain 15.5 |
| ChunkGrid.Put | src/components/ground.js:243-248 | Writing m[x][z] creates row x when it is missing, sets that entry and leaves every other entry unchanged |
| Ground.Chunk.constructor | src/components/ground.js:62-76 | A new chunk has center (cx + 16, 0, cz + 16), the quad of (cx, cz), empty caches and no obstacles |
| Ground.FirstCovering | src/components/ground.js:135-145 | The scan finds nothing exactly when no chunk's box holds (x, z); otherwise it returns a chunk of the list whose box holds the point |
| Ground.Kept | src/components/ground.js:253-259 | The cull never lengthens the chunk list |
| Ground.KeptMembers | src/components/ground.js:253-259 | The cull keeps exactly the chunks whose center is not farther than cullRadius, each taken from the old list |
| Ground.KeptAreNear | src/components/ground.js:253-259 | Every chunk left after the cull has squared distance at most cullRadius² from (x, 0, z) |
| Ground.KeptDistinct | src/components/ground.js:253-259 | The cull keeps grid corners pairwise distinct |
| Ground.CullStep | src/components/ground.js:254-258 | One step of the backward splice loop, removing or keeping chunk i, extends the kept suffix by one |
| Ground.GroundComponent.ObstacleFromDraws | src/components/ground.js:119-131 | Offsets in [0, 26) and a size step in [0, 3) give an obstacle inside its chunk (3 to 28 units in), on the terrain, of size 0.5, 1.5 or 2.5 |
| Ground.GroundComponent.constructor | src/components/ground.js:45-51 | A new ground is valid and holds exactly one chunk, with corner (−16, −16) |
| Ground.GroundComponent.GetActiveChunk | src/components/ground.js:135-145 | `getActiveChunk` returns null exactly when no resident chunk's half-open box holds (x, z); otherwise a resident chunk that holds it |
| Ground.GroundComponent.ActiveChunkUnique | src/components/ground.js:135-145 | Resident chunks never overlap, so any resident chunk holding a point is the one `getActiveChunk` returns |
| Ground.GroundComponent.GetChunkCenter | src/components/ground.js:147-152 | Both coordinates are multiples of 32, so center − 16 is a grid corner |
| Ground.GroundComponent.EstimateNormalUp | src/components/ground.js:177-241 | The normal estimated from the eight noise samples points up and has squared length 1 |
| Ground.GroundComponent.SampleNormal | src/components/ground.js:177-241 | The eight samples, two differences, two cross products and the normalisation yield the estimated normal at (x, z) |
| Ground.GroundComponent.CacheHeightMap | src/components/ground.js:165-250 | `_cacheHeightMap` writes exactly heightMap[x][z] = y and normalMap[x][z] = norm, creating the row if needed; the other entries and the obstacles are unchanged |
| Ground.GroundComponent.LookupHeightMap | src/components/ground.js:154-163 | Corrected lookup: it returns the noise height at (x, z); on a hit nothing changes; on a miss that height is cached |
| Ground.GroundComponent.LookupHeightMapAsWritten | src/components/ground.js:154-163 | Lookup as written: on a hit it returns the cached height, and on a miss it caches the height but returns nothing |
| Ground.GroundComponent.CoveredCellCached | src/components/ground.js:102-116 | Once the full lattice is cached, the four corners of any cell inside the chunk are cached, so lookups never miss |
| Ground.GroundComponent.HeightAndNormalIn | src/components/ground.js:307-370 | `_getHeightAndNormalAt` on a chunk whose cell holding (x, z) is cached returns the terrain shading at (x, z) over noise heights, and the chunk is unchanged. The callers first establish that the cell is cached (`CoveredCellCached`), so the corrected and the as-written lookups agree there |
| Ground.GroundComponent.LookupTriangle | src/components/ground.js:308-337 | For a cached cell, the three vertices read through the cache form the triangle of the lattice height function that holds (x, z), and the chunk is unchanged |
| Ground.GroundComponent.LookupVertices | src/components/ground.js:326-334 | When all three lattice points are cached, each vertex carries the noise height of its lattice point and the chunk is unchanged |
| Ground.GroundComponent.GetHeightAndNormalAt | src/components/ground.js:300-305 | `getHeightAndNormalAt` returns null exactly when no chunk holds (x, z); otherwise it returns the shading of a holding chunk; chunks stay valid |
| Ground.GroundComponent.CreateHeightMap | src/components/ground.js:102-116 | After `_createHeightMap`, every point of the chunk's 33×33 lattice is cached with its noise height and estimated normal |
| Ground.GroundComponent.SpawnObstacles | src/components/ground.js:118-133 | Fewer than 5 obstacles are appended, each valid (inside the chunk, on the terrain, of an allowed size), with the caches untouched |
| Ground.GroundComponent.PlaceObstacle | src/components/ground.js:121-131 | One obstacle from three draws is valid, and the chunk is unchanged |
| Ground.GroundComponent.CreateChunk | src/components/ground.js:53-83 | If a chunk with corner (cx, cz) exists, the list and the random stream are unchanged; otherwise exactly one fresh chunk with that corner, center and quad is appended; the returned chunk is resident with that corner; the ground stays valid |
| Ground.GroundComponent.Probe | src/components/ground.js:263-266 | Afterwards some chunk holds (px, pz) or the snapped chunk is resident, and it is resident whenever no chunk held the point. The list changes exactly when the point was not provided for before (no chunk held it and none had its snapped corner); then one fresh chunk at the snapped corner is appended. Otherwise the list and the random stream are unchanged |
| Ground.GroundComponent.Cull | src/components/ground.js:253-259 | The backward splice loop leaves exactly the kept chunks, in their old order |
| Ground.GroundComponent.KeptValid | src/components/ground.js:253-259 | The chunks the cull keeps stay valid, with distinct corners |
| Ground.GroundComponent.EnsureChunks | src/components/ground.js:252-298 | `ensureChunks` leaves the kept chunks first, in order, followed by at most 8 fresh ones. Each of the eight probe points lies in a chunk or has its snapped chunk resident. Each chunk added is the snapped chunk of a probe point that no chunk before it provided for (`NeededFrom`). When the kept chunks already provide for all eight points, nothing is created and no draw is used. The ground stays valid |
| Ground.GroundComponent.ProbeAll | src/components/ground.js:262-296 | The probes only append fresh chunks, at most one per point. Every point ends up provided for. Every chunk added is the snapped chunk of a point that the chunks before it did not provide for. When the old chunks provide for every point, the list and the random stream are unchanged |
| Ground.GroundComponent.ProbeNext | src/components/ground.js:262-296 | One probe of the loop keeps the earlier points provided for and provides for the new one. It appends at most one fresh chunk, only when the new point was not provided for, and at its snapped corner. It keeps the loop's rule that nothing changes while the starting chunks provide for every point |
| Ground.ProbeStep | src/components/ground.js:262-296 | When chunks are only appended and the chunk added, if any, is the new point's snapped chunk, the facts about the points so far extend to one more point |
| Ground.ProvidesStep | src/components/ground.js:262-296 | A point provided for stays provided for when chunks are appended |
| Ground.SnappedStep | src/components/ground.js:262-296 | A chunk appended for point p is the snapped chunk of one of the points so far, p included |
| Ground.NeededStep | src/components/ground.js:262-296 | A chunk appended for a point that the chunks before it did not provide for, at its snapped corner, keeps every added chunk justified by one of the points so far |
| Ground.SnapCorners | src/components/ground.js:262-296 | The j-th corner is the snapped corner `getChunkCenter` gives for the j-th point, for every point |
| Ground.SamplesNormalUp | src/components/ground.js:230-241 | Whatever the eight sample heights, the estimate's raw y is 7.92, so the normal points up with unit length |
| Ground.UpNormalized | src/components/ground.js:238-241 | A vector with y = 7.92 normalises to an upward unit vector |
| Noise.WeightedStep | src/components/ground.js:90-93 | One loop iteration adds noise2D(x·f, y·f)·a of layer i to the layered sum |
| Noise.Sample | src/components/ground.js:85-99 | The noise closure's loop returns the sum over i < octaves of noise2D(x·freq·lacᶦ, y·freq·lacᶦ)·amp·persᶦ |
| Noise.NoOctavesIsFlat | src/components/ground.js:90 | With no octaves the height is 0 |
| Noise.AmpNonNegative | src/components/ground.js:88-93 | With non-negative amplitude and persistence every layer weight is non-negative |
| Noise.LayersBounded | src/components/ground.js:85-99 | If noise2D stays in [−1, 1], the layered height lies within ± the sum of the layer weights |
| Terrain.CellOf | src/components/ground.js:308-315 | x2 = x1 + 1 always holds, and 0 ≤ xl < 1 |
| Terrain.TriangleEdges | src/components/ground.js:325-337 | For xl ≥ zl the triangle is (x1,z1), (x2,z1), (x2,z2), otherwise (x2,z2), (x1,z2), (x1,z1); the edges are stated in terms of the four corner heights |
| Terrain.EdgeShape | src/components/ground.js:325-337 | Both triangles have edges of the form (−1, p, 0) and (0, q, 1) |
| Terrain.EdgeNormal | src/components/ground.js:339-351 | For such edges the normalised cross product points up, has unit length and is a positive multiple of (p, 1, −q) |
| Terrain.ShadeNormalUp | src/components/ground.js:339-351 | The terrain normal, tangent and binormal have unit length, and normal.y > 0, so the plane division is never by zero |
| Terrain.ShadeNormalSlopes | src/components/ground.js:325-351 | The terrain normal is a positive multiple of (p, 1, −q), where p and q are the y parts of the chosen triangle's edges |
| Terrain.EdgesNormalSlopes | src/components/ground.js:339-351 | For any triangle whose edges have the form (−1, p, 0) and (0, q, 1), the normalised cross product is that upward multiple of (p, 1, −q) |
| Terrain.PlaneHeightSlopes | src/components/ground.js:353-362 | With such a normal, the plane-equation height is the plane through the first vertex with slopes p and q |
| Terrain.ShadeInterpolates | src/components/ground.js:307-362 | The height is the linear interpolation of the chosen triangle's three corner heights at (xl, zl) |
| Terrain.FacetInterpolates | src/components/ground.js:353-362 | With an upward normal of that form, the plane-equation height is the linear interpolation of the triangle's corner heights |
| Terrain.ShadeThroughVertices | src/components/ground.js:325-362 | The plane-equation height equals the lattice height at each of the triangle's three vertices |
| Terrain.FacetThroughVertices | src/components/ground.js:353-362 | With an upward normal of that form, the plane through s1 passes through all three vertices |
| Terrain.DiagonalAgrees | src/components/ground.js:325-337 | On the diagonal xl = zl both triangles give the same height |
| Terrain.TriangleCorners | src/components/ground.js:325-337 | Every vertex read is one of the four corners of the cell holding (x, z) |
| Rng.Random.Next | src/components/ground.js:119-123 | A draw returns the next value of the stream and advances the cursor; the value is in [0, 1) for a valid stream |
| Rng.FloorScaled | src/components/ground.js:119-123 | Math.floor(r·n) for r in [0, 1) and n > 0 is an integer in [0, n) |
| Vectors.MathLib.RotateYKeepsRadius | src/sim/specimen-system.js:151-158 | A turn about the y axis keeps the height and the horizontal distance from the axis |
| Vectors.MathLib.NormalizeUnit | src/sim/rover-system.js:191 | `vec3.normalize` gives squared length 1, or the zero vector for a zero input |
| Vectors.MathLib.DistanceCompare | src/sim/specimen-system.js:164-179 | Comparing `vec3.distance` with a non-negative bound is the same as comparing squared distance with the bound squared |
| OrderedMaps.OrderedMap.Set | src/sim/specimen-system.js:61 | `map.set` appends a new key at the end, keeps an existing key's place, and updates the value |
| OrderedMaps.OrderedMap.Delete | src/sim/specimen-system.js:80 | `map.delete` removes exactly that key from the map and from the order, keeps the other keys in their relative order, and never lengthens the order |
| OrderedMaps.WithoutKeepsOrder | src/sim/specimen-system.js:80 | Removing a key from a sequence keeps every pair of the remaining keys in the same relative order |
| OrderedMaps.OrderedMap.SizeCountsKeys | src/sim/specimen-system.js:100 | `map.size` counts the map's distinct keys |
| Specimens.TraitsOf | src/components/specimen.js:34-49 | Each kind has a positive value and size, and a panic speed above its idle speed |
| Specimens.LargeOutranksSmall | src/components/specimen.js:5-7 | A large specimen is worth more, is bigger and flees faster than a small one; both idle at 0.03 |
| Specimens.SpecimenComponent.constructor | src/components/specimen.js:27-54 | The new specimen has its position and a start position equal to it, the kind's table row, originalSize equal to size, identity rotations and no target |
| Score.SumAppend | src/components/score.js:20 | Adding one bumped value at the end adds it to the total |
| Score.SumOfPositives | src/components/score.js:20 | A total of positive specimen values is at least the number of bumps |
| Score.ScoreComponent.constructor | src/components/score.js:13-16 | A new score has value 0, is not updated and has no bumps |
| Score.ScoreComponent.Bump | src/components/score.js:18-21 | `bump` sets updated and adds exactly the specimen's value; the recorded bumps grow by that value, so value is their sum; the specimen is untouched |
| Rovers.RoverComponent.constructor | src/components/rover.js:20-30 | The new rover has zero velocity, no surface normal (airborne), turning and tilt 0, 100 fuel, identity surface rotation, and position, rotation and mass as given |
| RoverSim.Keys.TurnInput | src/sim/rover-system.js:136-139 | Left-minus-right input is in {−1, 0, 1}; it is 1 exactly for left without right and −1 exactly for right without left |
| RoverSim.Keys.ThrustInput | src/sim/rover-system.js:148-151 | Back-minus-forward input is in {−1, 0, 1} and is nonzero only when a key is held |
| RoverSim.Clamp | src/sim/rover-system.js:90 | The result lies in [0, 100]; values inside stay, values below give 0 and values above give 100 |
| RoverSim.BoostStep | src/sim/rover-system.js:88-90 | Fuel drops by 1.5 while space is held and rises by 1 otherwise, saturating at 0 and 100 |
| RoverSim.BoostOn | src/sim/rover-system.js:91 | Boost is on exactly when space is held and the remaining fuel is positive |
| RoverSim.RotationSpeedBounds | src/sim/rover-system.js:128-133 | At speeds up to 0.44 the turn rate lies in [0, 0.05] |
| RoverSim.Sign | src/sim/rover-system.js:141 | turning is 1, −1 or 0 exactly as theta is positive, negative or zero |
| RoverSim.TurnDirection | src/sim/rover-system.js:136-141 | The sign of theta is the left-minus-right key input |
| RoverSim.IdleDrive | src/sim/rover-system.js:94-153 | Without a key held the rover neither turns nor thrusts: the rotation is kept, turning is 0 and the force is gravity plus the ground's reaction |
| RoverSim.SteeringTurns | src/sim/rover-system.js:128-141 | With a key held and a positive turn rate, `turning` is the left-minus-right input |
| RoverSim.NextTilt | src/sim/rover-system.js:156-160 | The tilt becomes 0.9·tilt − 0.1·turning, a convex combination, so tilt in [−1, 1] stays there |
| RoverSim.ThrustNeedsKey | src/sim/rover-system.js:115-153 | The thrust factor is 0 without a key, and its magnitude never exceeds 1.5·4 |
| RoverSim.FrictionBounds | src/sim/rover-system.js:168-186 | Friction is 0 in the air and lies in [0, 0.1] on the ground |
| RoverSim.CapBound | src/sim/rover-system.js:189-193 | After the cap the squared speed is at most the limit squared, and never more than before; a slow velocity is unchanged |
| RoverSim.IdleStop | src/sim/rover-system.js:196-198 | The anti-jiggle rule either keeps the velocity or zeroes it, and keeps it when the rover is not idle |
| RoverSim.IdleStopExact | src/sim/rover-system.js:196-198 | The velocity becomes zero exactly when the rover is idle with |v| < 0.02, or was already at rest |
| RoverSim.NewVelocityBound | src/sim/rover-system.js:162-198 | Whatever the forces, the new velocity is within this tick's cap (0.44 when boosting, 0.22 otherwise) |
| RoverSim.CapIdleBound | src/sim/rover-system.js:189-198 | The idle stop after the cap keeps the speed within the cap |
| RoverSim.Bounce | src/sim/rover-system.js:209-224 | Outside an obstacle's radius the rover's position and velocity are unchanged |
| RoverSim.BounceSlows | src/sim/rover-system.js:209-223 | A bounce leaves at most a quarter of the speed (|v'|² ≤ 0.0625·|v|²), and never speeds the rover up |
| RoverSim.BounceOnSurface | src/sim/rover-system.js:211-215 | A rover pushed out of an obstacle, unless it was at the exact center, ends up exactly `size` from the center |
| RoverSim.BouncesSlow | src/sim/rover-system.js:208-225 | However many obstacles push the rover, it never speeds up |
| RoverSim.Rest | src/sim/rover-system.js:227-235 | Ground contact keeps x and z, never leaves the rover below the terrain, and leaves a rover above it where it is |
| RoverSim.WithinBoostCap | src/sim/rover-system.js:189 | Either cap bounds the speed by 0.44 |
| RoverSim.InitiallyValid | src/components/rover.js:20-30 | A freshly built rover (at rest, airborne, full tank) satisfies the tick invariant |
| RoverSim.RoverSystem.constructor | src/sim/rover-system.js:46-55 | The system drives the given rover over the given ground |
| RoverSim.RoverSystem.Simulate | src/sim/rover-system.js:78-250 | One tick streams the chunks around the rover's start: the kept chunks within 128 stay first, at most 8 fresh ones follow, each of the eight probe points at 32 is provided for, each new chunk was needed by one of them, and nothing is created or drawn when the kept chunks already provide for all eight. The tick keeps the invariant (fuel in [0, 100], turning in {−1, 0, 1}, tilt in [−1, 1], speed within cap, upward unit normals). Fuel, boost, turning (`TurningFor`), rotation (`Turned`) and tilt follow their rules. The rover moves by `DriveVelocity` of its old state and the keys. If no chunk then holds it, the tick stops there (`NoTerrain`) with both surface fields unchanged. Otherwise it bounces off the chunk's obstacles in order (`Bounces`), and is then grounded at the terrain height with that normal and a surface rotation slerped toward the terrain frame, or airborne above it with the surface rotation kept |
| RoverSim.RoverSystem.Advance | src/sim/rover-system.js:88-249 | The tick after streaming: the same rover outcome as `Simulate`, including the surface normal and surface rotation on both paths, without touching the chunk list or the random stream |
| RoverSim.RoverSystem.Drive | src/sim/rover-system.js:88-200 | Fuel, boost, turning and tilt follow their rules, the rotation is `Turned` by the keys, the velocity is exactly `DriveVelocity` of the old velocity, rotations, normal and the keys (forces, friction, cap and idle stop), within the cap, and the rover moves by it |
| RoverSim.RoverSystem.UpdateBoost | src/sim/rover-system.js:88-92 | Fuel steps and is clamped, boost is set from it, turning is reset to 0, and nothing else changes |
| RoverSim.RoverSystem.Steer | src/sim/rover-system.js:94-160 | The force is `DriveForce`: gravity always, the ground reaction only when grounded, thrust along the scaled nose (`Nose`) only when grounded with a key held. Turning and rotation are `TurningFor` and `Turned`, so the rover turns only with a key held. The tilt eases toward −turning |
| RoverSim.RoverSystem.Propel | src/sim/rover-system.js:162-200 | The velocity becomes the forces-friction-cap-idle result, within the cap, and the position advances by it |
| RoverSim.RoverSystem.Accelerate | src/sim/rover-system.js:162-200 | The velocity update and the move, with the other fields unchanged |
| RoverSim.RoverSystem.Sense | src/sim/rover-system.js:203-206 | The terrain query returns nothing exactly when no chunk holds the rover; otherwise an upward unit normal from a resident chunk |
| RoverSim.RoverSystem.Collide | src/sim/rover-system.js:208-249 | The velocity and position are those the chunk's obstacles give in list order (`Bounces`), then lifted to the terrain (`Rest`). The rover is grounded with the terrain normal and a blended orientation at or below the terrain, and airborne above it; the speed stays within the cap |
| RoverSim.RoverSystem.ResolveObstacles | src/sim/rover-system.js:208-225 | The chunk's obstacles push the rover in list order, and a speed within the cap stays within it |
| RoverSim.RoverSystem.Push | src/sim/rover-system.js:209-223 | One obstacle's push gives the rover the bounced position and velocity |
| RoverSim.RoverSystem.Land | src/sim/rover-system.js:227-249 | At or below the terrain height the rover is lifted to it, takes the surface normal and blends its orientation; above it the rover becomes airborne |
| SpecimenSim.HerdSize | src/sim/specimen-system.js:101-104 | For a draw in [0, 1) the herd size is in [4, 9] |
| SpecimenSim.LargeFromPointEightyOne | src/sim/specimen-system.js:122-124 | A member is large exactly when its draw is at least 0.81 |
| SpecimenSim.SpawnRadii | src/sim/specimen-system.js:92-98 | The chosen annulus (32 to 64 on the first tick, 64 to 96 later) has 0 < min < max |
| SpecimenSim.SpawnDistanceInRange | src/sim/specimen-system.js:113-114 | A herd center's distance lies in [min, max) of the tick's annulus |
| SpecimenSim.AroundOnCircle | src/sim/specimen-system.js:151-158 | `_getRandomVec3Around` returns a point at the target's height whose horizontal distance from the target is the given distance |
| SpecimenSim.CenterInAnnulus | src/sim/specimen-system.js:111-115 | A herd center is at the rover's height, with horizontal distance from the rover in [min, max) |
| SpecimenSim.WithinHerdRadius | src/sim/specimen-system.js:119-121 | A herd member, or a wander target, is at its center's height and less than 8 from it horizontally |
| SpecimenSim.AimNearHome | src/sim/specimen-system.js:190-194 | A target drawn about the home is at the home's height and less than 8 from it horizontally |
| SpecimenSim.OnTerrain | src/sim/specimen-system.js:216-221 | Standing on the terrain keeps a point's x and z |
| SpecimenSim.FleeAway | src/sim/specimen-system.js:180-185 | The flight offset is horizontal, 64 long and points away from the rover (or is zero when the rover is straight above or below) |
| SpecimenSim.StepLength | src/sim/specimen-system.js:197-206 | A step moves the specimen by exactly `speed`, or not at all when its direction is zero |
| SpecimenSim.ArrivedWithin | src/sim/specimen-system.js:208-213 | The arrival test is the squared horizontal distance at most speed² |
| SpecimenSim.ShrunkDecreasing | src/sim/specimen-system.js:138-145 | A captured size never grows with more shrink steps, and stays non-negative |
| SpecimenSim.ShrunkScale | src/sim/specimen-system.js:140 | n shrink steps multiply the starting size by 0.8ⁿ |
| SpecimenSim.UnitShrinks | src/sim/specimen-system.js:140 | The unit size after 15, 16, 18 and 19 shrinks by 0.8 is 0.8¹⁵, 0.8¹⁶, 0.8¹⁸ and 0.8¹⁹, the values on either side of MIN_SIZE for both kinds |
| SpecimenSim.ShrinkSteps | src/sim/specimen-system.js:138-145 | A small specimen (size 1) stays at least 0.03 for 15 shrinks and drops below at the 16th; a large one (size 2) at the 19th |
| SpecimenSim.StepWithin | src/sim/specimen-system.js:196-206 | A step moves the specimen at most `speed` horizontally, whatever happens to its height afterwards |
| SpecimenSim.SpecimenSystem.constructor | src/sim/specimen-system.js:32-37 | A new system has no specimens, nothing capturing, no herd size drawn, no bumps and no tally, takes the score's bumps so far as its base, and its books hold |
| SpecimenSim.SpecimenSystem.AddSpecimen | src/sim/specimen-system.js:126-129 | Creating a specimen entity registers a fresh specimen under a new entity, at the end of the map's order, with the given position and kind |
| SpecimenSim.SpecimenSystem.RandomAround | src/sim/specimen-system.js:151-158 | The point is the circle point of the next draw's angle, and exactly one draw is used |
| SpecimenSim.SpecimenSystem.HerdCenter | src/sim/specimen-system.js:111-115 | The center is exactly the circle point of its two draws, at a distance in the tick's annulus, so it lies at the rover's height with horizontal distance in [min, max) (`InAnnulus`); exactly two draws are used |
| SpecimenSim.SpecimenSystem.SpawnMember | src/sim/specimen-system.js:119-129 | One fresh member is added at the end of the order, at the center's height and less than 8 from it horizontally. Its kind is the one `KindOf` gives for the third draw, and exactly three draws are used |
| SpecimenSim.SpecimenSystem.SpawnHerd | src/sim/specimen-system.js:118-130 | Exactly `count` fresh members are appended (none for a negative count), each at the center's height and less than 8 from it, using three draws each |
| SpecimenSim.SpecimenSystem.SpawnNext | src/sim/specimen-system.js:118-130 | One turn of the herd loop appends one fresh specimen using three draws, and keeps every specimen spawned since the loop's start a member of the herd |
| SpecimenSim.SpecimenSystem.SpawnNextHerd | src/sim/specimen-system.js:111-131 | A herd of `count` fresh members is appended about the returned center. The center is the circle point of the first two draws and lies in the tick's annulus; every new member is a member of that center's herd, and the ghost list of centers grows by that center once per member |
| SpecimenSim.SpecimenSystem.Spawn | src/sim/specimen-system.js:92-132 | At 100 or more specimens nothing changes. Otherwise herds are added until the drawn next herd would reach 100, and the population stays below 100. Every specimen added is a member of a herd about a center in the annulus of the first tick (32 to 64) when the map was empty, and of later ticks (64 to 96) otherwise |
| SpecimenSim.SpecimenSystem.SpawnTurn | src/sim/specimen-system.js:100-131 | One turn draws a herd size if none is pending. It stops with nothing spawned exactly when that herd would reach 100. Otherwise it spawns the herd, placed as in `Spawn`, stays below 100 and leaves no size pending |
| SpecimenSim.SpecimenSystem.Panic | src/sim/specimen-system.js:179-188 | Within 10 of the rover the home moves 64 away from the rover at the specimen's height, the specimen panics and its target is cleared; otherwise nothing changes |
| SpecimenSim.SpecimenSystem.PickTarget | src/sim/specimen-system.js:190-194 | A specimen without a target gets exactly the circle point of two draws about its home, at its home's height and less than 8 from it; an existing target is kept and no draw is used |
| SpecimenSim.SpecimenSystem.Step | src/sim/specimen-system.js:196-214 | At panic speed when panicked and idle speed otherwise, the position becomes the step toward the target (`StepTo`), at most that far, and the target is cleared exactly on arrival (`TargetAfter`) |
| SpecimenSim.SpecimenSystem.Stand | src/sim/specimen-system.js:220-235 | On terrain the specimen's y becomes the terrain height and its orientation blends toward the ground's; without terrain nothing changes |
| SpecimenSim.SpecimenSystem.LockHeight | src/sim/specimen-system.js:216-235 | The terrain is found exactly when a chunk holds the specimen; then its y becomes the noise terrain height and its orientation blends toward the terrain's (`OnTerrain`, `SurfaceAt`); otherwise position and orientation are untouched |
| SpecimenSim.SpecimenSystem.Move | src/sim/specimen-system.js:196-235 | The specimen takes the step toward its target (`StepTo`), drops the target on arrival (`TargetAfter`) and then stands on the terrain at the stepped point (`OnTerrain`, `SurfaceAt`); it moves at most one step horizontally |
| SpecimenSim.SpecimenSystem.Wander | src/sim/specimen-system.js:179-235 | The specimen panics exactly when it already had or the rover is within 10, and then takes its flight home. It aims at its kept target, or at one drawn about its home with two draws, steps toward it, drops it on arrival and stands on the terrain (`Wanders`). It moves at most one step of its current speed and keeps its size |
| SpecimenSim.SpecimenSystem.UpdateOne | src/sim/specimen-system.js:160-237 | A capturing specimen is skipped and nothing changes. Otherwise it is captured exactly when the rover is within its size, and only this entity can start capturing. It is collected exactly when it is not captured and farther than 128, and otherwise it wanders (`Wanders`). The score's bumps and `worth` gain its value exactly on a capture. No size changes, and the other specimens are untouched |
| SpecimenSim.SpecimenSystem.Engage | src/sim/specimen-system.js:164-237 | Within its size it is captured, bumps the score by its value once (recorded in the score's bumps and in `worth`) and is untouched; beyond 128 it is collected untouched; otherwise it wanders (`Wanders`). Its size is kept and the other specimens are untouched |
| SpecimenSim.SpecimenSystem.Roam | src/sim/specimen-system.js:173-235 | It is collected exactly when farther than 128, and is then unchanged; otherwise it wanders (`Wanders`) |
| SpecimenSim.SpecimenSystem.Capture | src/sim/specimen-system.js:166-171 | The entity joins the end of `capturing` and is recorded once among the bumps. The score grows by its value, and that value is appended to both the score's bumps and `worth` |
| SpecimenSim.SpecimenSystem.UpdateAll | src/sim/specimen-system.js:134-177 | Every live specimen is updated once. Each is capturing afterwards exactly when it was capturing or the rover was within its size, and it is collected exactly when it was not capturing, not captured and farther than 128 (distances and sizes as at the tick's start), stated both per key of the order and per entity. Each newly captured entity is bumped once, and the score's new bumps are exactly the new part of `worth`. No size changes. Each collected entity is live and not capturing |
| SpecimenSim.SpecimenSystem.UpdateLoop | src/sim/specimen-system.js:134-137 | The loop over the specimen map brings every specimen to the outcome `_update` decides from the loop's starting snapshot of positions, sizes and captures; capturing only grows and each collected entity is live and not capturing |
| SpecimenSim.SpecimenSystem.UpdateNext | src/sim/specimen-system.js:135-137 | One turn updates the next specimen in map order. The earlier ones keep their outcome and the later ones stay as the snapshot has them |
| SpecimenSim.SpecimenSystem.Snapshot | src/sim/specimen-system.js:134-137 | The snapshot records each live specimen's position, size, distance from the rover and capture, and every specimen in it is still to be updated |
| SpecimenSim.DecidedStep | src/sim/specimen-system.js:160-177 | When one more specimen has gone through `_update` and no other capture changed, the outcome holds for one more index of the order |
| SpecimenSim.SpecimenSystem.ShrinkCaptured | src/sim/specimen-system.js:138-145 | Every capturing specimen's size is scaled by 0.8 and every other one is kept. Exactly those whose scaled size is still at least 0.03 keep capturing. `gone` is the collected list plus those that fell below |
| SpecimenSim.SpecimenSystem.RemoveAll | src/sim/specimen-system.js:146-148 | Exactly the collected entities leave the specimen map; the others keep their specimens |
| SpecimenSim.SpecimenSystem.Remove | src/sim/specimen-system.js:146-148 | Removing one collected entity drops exactly that entity from the specimen map and keeps the books pending |
| SpecimenSim.SpecimenSystem.Simulate | src/sim/specimen-system.js:84-149 | A tick keeps the books (no entity bumped twice, capturing ⊆ live, the score's bumps are the base followed by `worth`). The population stays below 100 or does not grow. Bumps and `worth` are only appended, and the score's new bumps are exactly the new part of `worth`. Every entity live before the tick is captured, shrunk, kept or removed as `Aged` says, and one still live keeps its specimen |
| SpecimenSim.SpecimenSystem.Advance | src/sim/specimen-system.js:134-148 | For every entity live at the start, with its distance from the rover and its size then (`Aged`): it is captured now or was, and then its size is scaled by 0.8, otherwise kept. It keeps capturing exactly when captured with a scaled size of at least 0.03. It stays live exactly when it neither left beyond 128 nor shrank below 0.03. No entity is added. Bumps and `worth` are only appended, matching the score |
| SpecimenSim.SpecimenSystem.Populate | src/sim/specimen-system.js:92-132 | Spawning keeps the whole state valid and only adds fresh specimens, each about a center in the tick's annulus. At 100 or more nothing changes; below 100 herds are added until the pending herd would reach 100, and the population stays below 100 |
| SpecimenSim.SpecimenSystem.CapturedLive | src/sim/specimen-system.js:138-145 | The capturing specimens are live ones, so the shrink only touches live specimens |
| SpecimenSim.SpecimenSystem.Settle | src/sim/specimen-system.js:138-148 | Each capturing specimen's size is scaled by 0.8, and every other size is kept. An entity keeps capturing exactly when it was capturing and its scaled size is at least 0.03. An entity stays live exactly when it was live, was not collected, and was not a capturing one that fell below 0.03; it keeps its specimen. The state stays valid, and the population and the bumps do not grow |
| SpecimenSim.LiveAdd | src/sim/specimen-system.js:59-62 | Registering a new entity with an unowned specimen keeps the map well formed with distinct owners |
| SpecimenSim.LiveRemove | src/sim/specimen-system.js:78-81 | Removing an entity keeps the specimen map well formed |
| SpecimenSim.LedgerAdd | src/sim/specimen-system.js:59-62 | A new entity has never been bumped nor captured |
| SpecimenSim.LedgerCapture | src/sim/specimen-system.js:166-171 | A capture records the entity both as capturing and as bumped, keeping bumps duplicate-free |
| SpecimenSim.LedgerShrunk | src/sim/specimen-system.js:138-145 | Entities that stop capturing, and others not capturing, can be collected without breaking the ledger |
| SpecimenSim.LedgerRemove | src/sim/specimen-system.js:146-148 | A collected entity can be removed without breaking the ledger |
| SpecimenSim.LedgerSettled | src/sim/specimen-system.js:146-148 | Once no collected entity is live, nothing is waiting for removal |
| SpecimenSim.TallyAdd | src/sim/specimen-system.js:59-62 | Registering an entity that was never bumped keeps each bump's value equal to its entity's value |
| SpecimenSim.TallyCapture | src/sim/specimen-system.js:166-171 | A capture appends the entity and its specimen's value to the tally |
| SpecimenSim.TallyRemove | src/sim/specimen-system.js:146-148 | Removing an entity keeps the tally of the others |
| SpecimenSim.OthersDistinct | src/sim/specimen-system.js:135-137 | Every other key of the specimen map is live and owns a different specimen object from the i-th, so updating one leaves the others alone |
| SpecimenSim.BaseSplit | src/components/score.js:18-21 | With the base fixed, the score's bumps after more bumps are the earlier bumps followed by the new part of `worth` |
| SpecimenSim.ShrinkOne | src/sim/specimen-system.js:139-144 | The specimen's size is scaled by 0.8, and it leaves the capturing map exactly when its size drops below 0.03 |
| SpecimenSim.ShrinkAll | src/sim/specimen-system.js:138-145 | Every capturing specimen shrinks once: its size is scaled by 0.8. The returned map keeps exactly those still at least 0.03, with their specimens, and the returned list holds exactly the others |

## Left out

- Rendering, WebGL buffers, and the vertex and normal arrays written for the GPU (`twgl.createBufferInfoFromArrays`, the writes to `pos` and `normal` in `_createHeightMap`) are not modelled. `console.log` is not modelled either.
- `twgl.primitives.createPlaneVertices` is not modelled. The model assumes a 33×33 integer lattice at offsets −16..16 (z outer, x inner); `Ground.GroundComponent.CreateHeightMap` iterates over that lattice.
- Floating point: all arithmetic is over `real`, and no claim is made about IEEE rounding.
- sqrt, cos and sin are constrained only by `MathLib.Valid`. `quat.rotateY`, `quat.setAxes` and `quat.slerp` are uninterpreted, so nothing is proved about orientations.
- Vectors are values, so the aliasing of gl-matrix out-parameters is not modelled. For example, a specimen's `position` is the caller's vector in specimen.js:31.
- Key listeners (rover-system.js:36-44, 68-76) are not modelled. The held keys are a `Keys` parameter of `Simulate`.
- Entity registration is simplified. The systems are constructed with their rover, ground and score, so the early returns at rover-system.js:79-83 and specimen-system.js:85-90 are not modelled.
- Creating a specimen entity is taken to register it at once (`AddSpecimen`). Removing one deletes it from the specimen map directly in `RemoveAll`. The world object and its builders are not part of this model.
- The shrink loop over `_capturing` (specimen-system.js:138-145) deletes entries while iterating. The model iterates over a copy and assigns the remaining map once at the end. This gives the same final state, because each entry is visited once and only the visited entry is deleted.
- Ground.GroundComponent.EnsureChunks: the eight probes of ground.js:262-296 are modelled as a loop over the eight probe points in source order (`Ground.ProbePoints`). The model does not claim that every probe point lies in a chunk afterwards, because `getChunkCenter` rounds positive coordinates up (`ChunkGrid.CenterMissesExample`). It claims the weaker `Provides`: the point lies in a chunk, or the chunk its snapped corner names is resident.
- Ground.GroundComponent.HeightAndNormalIn, LookupTriangle and LookupVertices require the cell's corners to be cached. Every caller in the source asks about a point inside a resident chunk, whose whole lattice `_createHeightMap` cached, so the miss path is not reached there. On a miss the as-written lookup returns `undefined` (see Findings); that path is modelled by `LookupHeightMapAsWritten` and `LookupHeightMap` only.
- SpecimenSim.SpecimenSystem.SpawnMember: the member's position is bounded (the center's height, less than 8 away horizontally) but not stated as the exact circle point of its two draws. The herd loop does not verify within the resource limit with that clause.
- RoverSim.RoverSystem.Simulate: `hn` is dereferenced without a null check at rover-system.js:208. The model turns a missing chunk under the rover into the outcome `NoTerrain`. The tick then stops after the move, where the source would throw.
- RoverSim.RoverSystem.Simulate: division by the rover's mass (rover-system.js:164) is required to be by a nonzero mass, through the rover invariant.
- Rovers.RoverComponent.constructor: the source leaves `boost` undefined until the first tick (falsy). The model starts it as `false`.
- Specimens.SpecimenComponent.constructor: only the two specimen types exist in the model. An unknown type, which leaves the table fields undefined in specimen.js:34-49, cannot be expressed.
- Specimen types and herd sizes come from the shared `Math.random` stream. The model names each draw by its position in that stream, but makes no claim about the distribution.
- SpecimenSim.SpecimenSystem.UpdateAll: each specimen's wander outcome (`Wanders`: panic, target, step, height) is stated by UpdateOne, Engage and Roam, not by UpdateAll or Simulate. The random-stream cursor is shared along the map order, so each specimen's draws depend on the specimens before it. UpdateAll states only the capture outcome, the collection outcome and the sizes, per entity.
- SpecimenSim.SpecimenSystem.Simulate: the placement of the specimens spawned in the tick is stated by Populate only, and Simulate does not restate it. Simulate also does not lift the wander outcome (see UpdateAll).
- `_herds` (specimen-system.js:35) is never used and is not modelled. Neither is `timestep`, which `simulate` takes but never reads.
- The third-person camera and the UI system are not modelled.

## Findings

| source | as written | input that shows it | evidently intended | confidence | as-written member | corrected member |
|---|---|---|---|---|---|---|
| src/components/ground.js:154-163 | On a cache miss, `_lookupHeightMap` computes and caches the noise height. It then tests `!chunk.heightMap[x]` on the row it has just created, and only returns `y` when that test holds, so it returns `undefined`. | Any (x, z) not yet in `chunk.heightMap`, for example a cell outside the chunk's cached lattice. | Return the noise height `y` on a miss, as on a hit. | not executed | Ground.GroundComponent.LookupHeightMapAsWritten | Ground.GroundComponent.LookupHeightMap |
