/**
 * `SpecimenSystem`: keeps a population of herds around the rover, steers each
 * specimen (wandering, fleeing when the rover comes close), captures the ones
 * the rover touches (one score bump each, then a shrink to nothing) and
 * despawns the ones left far behind.
 */
module SpecimenSim {
  import opened Wrappers
  import opened Vectors
  import opened OrderedMaps
  import opened Specimens
  import Rng
  import Rovers
  import Ground
  import Score

  /** The constants at the top of specimen-system.js. */
  const MaxSpecimens: int := 100
  const MinSpawnRadius: real := 64.0
  const MaxSpawnRadius: real := 96.0
  const DespawnRadius: real := 128.0
  const MinHerdSize: int := 4
  const MaxHerdSize: int := 10
  const MaxHerdRadius: real := 8.0
  const InitialMinSpawnRadius: real := 32.0
  const InitialMaxSpawnRadius: real := 64.0
  const PanicRadius: real := 10.0
  const CaptureSpeed: real := 0.8
  const MinSize: real := 0.03

  /** `Math.PI` as a double. */
  const Pi: real := 3.141592653589793

  // ---------------------------------------------------------------------------
  // Spawning

  /** Lines 102-103: the size of the next herd from one draw. */
  function HerdSize(draw: real): (n: int)
    ensures 0.0 <= draw < 1.0 ==> MinHerdSize <= n < MaxHerdSize
  {
    MinHerdSize + Rng.FloorScaled(draw, (MaxHerdSize - MinHerdSize) as real)
  }

  /** Lines 122-124: a member is large when `floor(draw * 100) > 80`. */
  function KindOf(draw: real): Kind {
    if Rng.FloorScaled(draw, 100.0) > 80 then Large else Small
  }

  /** About one member in five is large: exactly the draws from 0.81 up. */
  lemma LargeFromPointEightyOne(draw: real)
    ensures KindOf(draw) == Large <==> draw >= 0.81
  {
    assert (draw * 100.0).Floor > 80 <==> draw * 100.0 >= 81.0;
  }

  /** Lines 161-171: `_update` captures a specimen not yet capturing that the rover reaches within its size. */
  predicate Caught(capturing: bool, distance: real, size: real) {
    !capturing && distance < size
  }

  /** Lines 161-177: `_update` collects a specimen not capturing, not caught and beyond DESPAWN_RADIUS. */
  predicate Leaves(capturing: bool, distance: real, size: real) {
    !capturing && !(distance < size) && distance > DespawnRadius
  }

  /**
   * Lines 134-148 for one entity of the tick's start, capturing or not, at
   * `distance` from the rover with size `size`: it is captured now or was,
   * and then its size is scaled by CAPTURE_SPEED to `size'`; it stays
   * capturing while that is at least MIN_SIZE; and it stays live unless it
   * left beyond DESPAWN_RADIUS or shrank below MIN_SIZE.
   */
  ghost predicate Aged(wasCapturing: bool, distance: real, size: Vec3, size': Vec3, capturing: bool, live: bool) {
    var caught := wasCapturing || Caught(false, distance, size.x);
    && (caught ==> size' == Scale(size, CaptureSpeed))
    && (!caught ==> size' == size)
    && (capturing <==> caught && size.x * CaptureSpeed >= MinSize)
    && (live <==> !Leaves(wasCapturing, distance, size.x) && !(caught && size.x * CaptureSpeed < MinSize))
  }

  /** Lines 92-98: the annulus a herd center is drawn from; the first spawn of all is closer in. */
  function SpawnRadii(initial: bool): (r: (real, real))
    ensures 0.0 < r.0 < r.1
  {
    if initial then (InitialMinSpawnRadius, InitialMaxSpawnRadius) else (MinSpawnRadius, MaxSpawnRadius)
  }

  /** Lines 113-114: a distance drawn uniformly from [minDistance, maxDistance). */
  function SpawnDistance(minDistance: real, maxDistance: real, draw: real): real {
    minDistance + (maxDistance - minDistance) * draw
  }

  /** A herd center's distance lies within the annulus of the tick. */
  lemma SpawnDistanceInRange(initial: bool, draw: real)
    requires 0.0 <= draw < 1.0
    ensures var (lo, hi) := SpawnRadii(initial);
      lo <= SpawnDistance(lo, hi, draw) < hi
  {
  }

  /** Line 153: the angle `Math.random() * 2 * Math.PI`. */
  function Angle(draw: real): real {
    draw * 2.0 * Pi
  }

  /**
   * `_getRandomVec3Around` (lines 151-158): the unit x vector scaled by `distance`,
   * turned about the y axis by the drawn angle, then moved to `target`.
   */
  function Around(math: MathLib, target: Vec3, distance: real, angleDraw: real): Vec3 {
    Add(math.RotateY(Scale(Vec3(1.0, 0.0, 0.0), distance), Angle(angleDraw)), target)
  }

  /** The point lies on the horizontal circle of radius |distance| about `target`. */
  lemma AroundOnCircle(math: MathLib, target: Vec3, distance: real, angleDraw: real)
    requires math.Valid()
    ensures Around(math, target, distance, angleDraw).y == target.y
    ensures HorizontalDistSq(Around(math, target, distance, angleDraw), target) == distance * distance
  {
    var spoke := Scale(Vec3(1.0, 0.0, 0.0), distance);
    math.RotateYKeepsRadius(spoke, Angle(angleDraw));
    var r := math.RotateY(spoke, Angle(angleDraw));
    assert HorizontalDistSq(Add(r, target), target) == HorizontalDistSq(r, Zero);
  }

  // ---------------------------------------------------------------------------
  // Steering

  /** Lines 180-185: the new home, 64 units from the specimen straight away from the rover. */
  function FleeOffset(math: MathLib, position: Vec3, roverPosition: Vec3): Vec3 {
    var toRover := Sub(roverPosition, position);
    Scale(math.Normalize(Vec3(toRover.x, 0.0, toRover.z)), MinSpawnRadius * -1.0)
  }

  /**
   * The flight offset is horizontal, 64 long and points away from the rover,
   * unless the rover stands exactly above or below the specimen.
   */
  lemma FleeAway(math: MathLib, position: Vec3, roverPosition: Vec3)
    requires math.Valid()
    ensures var off := FleeOffset(math, position, roverPosition);
      var h := Vec3(roverPosition.x - position.x, 0.0, roverPosition.z - position.z);
      && off.y == 0.0
      && (LengthSq(h) > 0.0 ==> LengthSq(off) == MinSpawnRadius * MinSpawnRadius && Dot(off, h) < 0.0)
      && (LengthSq(h) <= 0.0 ==> off == Zero)
  {
    var h := Vec3(roverPosition.x - position.x, 0.0, roverPosition.z - position.z);
    math.NormalizeUnit(h);
    var k := math.InvLength(h);
    LengthSqScale(math.Normalize(h), MinSpawnRadius * -1.0);
    if LengthSq(h) > 0.0 {
      math.InvLengthPositive(h);
      DotScale(h, k * (MinSpawnRadius * -1.0), h);
      assert Scale(math.Normalize(h), MinSpawnRadius * -1.0) == Scale(h, k * (MinSpawnRadius * -1.0));
      math.MulPositive(k, LengthSq(h));
    }
  }

  /** Lines 197-206: a step of length `speed` toward the target, aimed from the specimen's ground point. */
  function StepToward(math: MathLib, position: Vec3, target: Vec3, speed: real): Vec3 {
    var direction := Sub(target, Vec3(position.x, 0.0, position.z));
    Add(Scale(math.Normalize(direction), speed), position)
  }

  /** A step moves the specimen by exactly `speed`, or not at all when it is aimed at nothing. */
  lemma StepLength(math: MathLib, position: Vec3, target: Vec3, speed: real)
    requires math.Valid()
    ensures var d := Sub(target, Vec3(position.x, 0.0, position.z));
      var moved := DistSq(StepToward(math, position, target, speed), position);
      && (LengthSq(d) > 0.0 ==> moved == speed * speed)
      && (LengthSq(d) <= 0.0 ==> moved == 0.0)
  {
    var d := Sub(target, Vec3(position.x, 0.0, position.z));
    var step := Scale(math.Normalize(d), speed);
    math.NormalizeUnit(d);
    LengthSqScale(math.Normalize(d), speed);
    assert Sub(Add(step, position), position) == step;
  }

  /** Lines 208-211: arrived when the horizontal distance to the target is at most one step. */
  predicate Arrived(math: MathLib, position: Vec3, target: Vec3, speed: real) {
    math.sqrt(HorizontalDistSq(position, target)) <= speed
  }

  /** Lines 196-206: where the step toward the target puts the specimen; without a target it stays. */
  function StepTo(math: MathLib, position: Vec3, target: Option<Vec3>, speed: real): Vec3 {
    if target.Some? then StepToward(math, position, target.value, speed) else position
  }

  /** Lines 208-213: the target is dropped once the specimen at `p` is within one step of it. */
  function TargetAfter(math: MathLib, p: Vec3, target: Option<Vec3>, speed: real): Option<Vec3> {
    if target.Some? && Arrived(math, p, target.value, speed) then None else target
  }

  lemma ArrivedWithin(math: MathLib, position: Vec3, target: Vec3, speed: real)
    requires math.Valid() && 0.0 <= speed
    ensures Arrived(math, position, target, speed) <==> HorizontalDistSq(position, target) <= speed * speed
  {
    var dx, dz := position.x - target.x, position.z - target.z;
    SquarePositive(dx);
    SquarePositive(dz);
    math.SqrtCompare(HorizontalDistSq(position, target), speed);
  }

  // ---------------------------------------------------------------------------
  // Capture

  /** The size after n capture ticks. */
  function Shrunk(size: real, n: nat): real {
    if n == 0 then size else Shrunk(size, n - 1) * CaptureSpeed
  }

  lemma {:induction false} ShrunkDecreasing(size: real, m: nat, n: nat)
    requires 0.0 <= size && m <= n
    ensures 0.0 <= Shrunk(size, n) <= Shrunk(size, m)
  {
    if n > 0 {
      ShrunkDecreasing(size, if m < n then m else n - 1, n - 1);
    }
  }

  /** 0.8^15, 0.8^16, 0.8^18 and 0.8^19. */
  lemma UnitShrinks()
    ensures Shrunk(1.0, 15) == 0.035184372088832
    ensures Shrunk(1.0, 16) == 0.0281474976710656
    ensures Shrunk(1.0, 18) == 0.018014398509481984
    ensures Shrunk(1.0, 19) == 0.0144115188075855872
  {
    assert Shrunk(1.0, 15) == 0.035184372088832;
    assert Shrunk(1.0, 16) == Shrunk(1.0, 15) * CaptureSpeed;
    assert Shrunk(1.0, 17) == Shrunk(1.0, 16) * CaptureSpeed;
    assert Shrunk(1.0, 18) == Shrunk(1.0, 17) * CaptureSpeed;
    assert Shrunk(1.0, 19) == Shrunk(1.0, 18) * CaptureSpeed;
  }

  /** Shrinking is linear in the starting size. */
  lemma {:induction false} ShrunkScale(size: real, n: nat)
    ensures Shrunk(size, n) == size * Shrunk(1.0, n)
  {
    if n > 0 {
      ShrunkScale(size, n - 1);
    }
  }

  /**
   * Lines 138-145 with the sizes of the constructor's table: a small specimen
   * (size 1) leaves at its 16th shrink, a large one (size 2) at its 19th.
   */
  lemma ShrinkSteps()
    ensures forall n: nat :: n < 16 ==> Shrunk(1.0, n) >= MinSize
    ensures Shrunk(1.0, 16) < MinSize
    ensures forall n: nat :: n < 19 ==> Shrunk(2.0, n) >= MinSize
    ensures Shrunk(2.0, 19) < MinSize
  {
    UnitShrinks();
    ShrunkScale(2.0, 18);
    ShrunkScale(2.0, 19);
    forall n: nat | n < 16
      ensures Shrunk(1.0, n) >= MinSize
    {
      ShrunkDecreasing(1.0, n, 15);
    }
    forall n: nat | n < 19
      ensures Shrunk(2.0, n) >= MinSize
    {
      ShrunkDecreasing(2.0, n, 18);
    }
  }

  /** A herd center's horizontal distance from the rover lies in the tick's annulus. */
  lemma CenterInAnnulus(math: MathLib, roverPosition: Vec3, initial: bool, distanceDraw: real, angleDraw: real)
    requires math.Valid() && 0.0 <= distanceDraw < 1.0
    ensures var (lo, hi) := SpawnRadii(initial);
      var c := Around(math, roverPosition, SpawnDistance(lo, hi, distanceDraw), angleDraw);
      && c.y == roverPosition.y
      && lo * lo <= HorizontalDistSq(c, roverPosition) < hi * hi
  {
    var (lo, hi) := SpawnRadii(initial);
    var d := SpawnDistance(lo, hi, distanceDraw);
    SpawnDistanceInRange(initial, distanceDraw);
    AroundOnCircle(math, roverPosition, d, angleDraw);
    math.MulLess(d, hi);
    if lo < d {
      math.MulLess(lo, d);
    }
  }

  /** Lines 111-114: `center` is at the height of `around` and in the tick's spawn annulus about it. */
  ghost predicate InAnnulus(initial: bool, center: Vec3, around: Vec3) {
    var (lo, hi) := SpawnRadii(initial);
    center.y == around.y && lo * lo <= HorizontalDistSq(center, around) < hi * hi
  }

  /** A herd member, or a wander target, lies less than MAX_HERD_RADIUS from its center. */
  lemma WithinHerdRadius(math: MathLib, center: Vec3, distanceDraw: real, angleDraw: real)
    requires math.Valid() && 0.0 <= distanceDraw < 1.0
    ensures var p := Around(math, center, MaxHerdRadius * distanceDraw, angleDraw);
      p.y == center.y && HorizontalDistSq(p, center) < MaxHerdRadius * MaxHerdRadius
  {
    AroundOnCircle(math, center, MaxHerdRadius * distanceDraw, angleDraw);
    math.MulLess(MaxHerdRadius * distanceDraw, MaxHerdRadius);
  }

  /** Lines 190-194: the target steered for, the one kept or, without one, one drawn about the home. */
  function Aim(math: MathLib, target: Option<Vec3>, home: Vec3, distanceDraw: real, angleDraw: real): Vec3 {
    if target.Some? then target.value else Around(math, home, MaxHerdRadius * distanceDraw, angleDraw)
  }

  /** A drawn target lies less than MAX_HERD_RADIUS from the home, at its height. */
  lemma AimNearHome(math: MathLib, home: Vec3, distanceDraw: real, angleDraw: real)
    requires math.Valid() && 0.0 <= distanceDraw < 1.0
    ensures var a := Aim(math, None, home, distanceDraw, angleDraw);
      a.y == home.y && HorizontalDistSq(a, home) < MaxHerdRadius * MaxHerdRadius
  {
    WithinHerdRadius(math, home, distanceDraw, angleDraw);
  }

  /** Lines 216-221: `p` with the terrain height wherever one of the resident `chunks` holds it. */
  ghost function OnTerrain(ground: Ground.GroundComponent, chunks: seq<Ground.Chunk>, p: Vec3): (r: Vec3)
    ensures r.x == p.x && r.z == p.z
  {
    if Ground.FirstCovering(chunks, p.x, p.z).Some? then Vec3(p.x, ground.TerrainAt(p.x, p.z).height, p.z) else p
  }

  /** Lines 222-234: the orientation `q` eased a quarter of the way to the terrain's at `p`, where a chunk holds it. */
  ghost function SurfaceAt(ground: Ground.GroundComponent, chunks: seq<Ground.Chunk>, q: Quat, p: Vec3): Quat {
    if Ground.FirstCovering(chunks, p.x, p.z).Some? then
      var t := ground.TerrainAt(p.x, p.z);
      ground.math.slerp(q, ground.math.setAxes(t.binormal, t.tangent, t.normal), 0.25)
    else q
  }

  /** The fields of a specimen that wandering changes. */
  datatype Pose = Pose(position: Vec3, home: Vec3, paniced: bool, target: Option<Vec3>, surface: Quat)

  ghost function PoseOf(s: SpecimenComponent): Pose
    reads s
  {
    Pose(s.position, s.startPosition, s.paniced, s.target, s.surfaceRotation)
  }

  /**
   * Lines 179-235: how specimen `s`, `distance` from the rover at `roverPosition`,
   * goes from pose `p0` to pose `p1` while the stream goes from `cursor` to
   * `cursor'`. Within PANIC_RADIUS it takes a home 64 away from the rover and drops
   * its target; it aims at the target kept or at one drawn about its home, steps
   * toward it at its current speed, drops it on arrival, and stands on the terrain.
   */
  ghost predicate Wandered(ground: Ground.GroundComponent, chunks: seq<Ground.Chunk>, roverPosition: Vec3,
                           s: SpecimenComponent, distance: real, p0: Pose, p1: Pose, cursor: nat, cursor': nat)
  {
    var panics := distance < PanicRadius;
    var kept := if panics then None else p0.target;
    var aim := Aim(ground.math, kept, p1.home, ground.rng.draws(cursor), ground.rng.draws(cursor + 1));
    var speed := if p1.paniced then s.panicSpeed else s.idleSpeed;
    var step := StepTo(ground.math, p0.position, Some(aim), speed);
    && p1.paniced == (p0.paniced || panics)
    && p1.home == (if panics then Add(p0.position, FleeOffset(ground.math, p0.position, roverPosition)) else p0.home)
    && cursor' == cursor + (if kept.None? then 2 else 0)
    && p1.position == OnTerrain(ground, chunks, step)
    && p1.target == TargetAfter(ground.math, step, Some(aim), speed)
    && p1.surface == SurfaceAt(ground, chunks, p0.surface, step)
  }

  // ---------------------------------------------------------------------------
  // The system

  class SpecimenSystem {
    const rover: Rovers.RoverComponent
    const ground: Ground.GroundComponent
    const score: Score.ScoreComponent
    /** `_specimens`: every live specimen by entity, in spawn order. */
    var specimens: OrderedMap<nat, SpecimenComponent>
    /** `_capturing`: the specimens shrinking after their capture. */
    var capturing: OrderedMap<nat, SpecimenComponent>
    var nextHerdSize: Option<int>
    /** The entity the world hands out next; entities are never reused. */
    var nextEntity: nat
    /** The entities whose capture bumped the score, in order. */
    ghost var bumped: seq<nat>
    /** The value each of those bumps added, in the same order. */
    ghost var worth: seq<int>
    /** The score's bumps before this system made any. */
    ghost const scoreBase: seq<int>

    /**
     * The live specimens and the capture ledger agree (see `Live` and
     * `Ledger`), with `gone` the entities collected for removal at the end of
     * a tick; the next herd size, once drawn, is in range.
     */
    ghost predicate Pending(gone: set<nat>)
      reads this
    {
      && Live(specimens, nextEntity)
      && Ledger(specimens, capturing, bumped, nextEntity, gone)
      && Tally(specimens, bumped, worth)
      && (nextHerdSize.Some? ==> MinHerdSize <= nextHerdSize.value < MaxHerdSize)
    }

    /** The bookkeeping between ticks: nothing is waiting for removal. */
    ghost predicate Books()
      reads this
    {
      Pending({})
    }

    /** The score has been bumped by exactly the values in `worth`, in order. */
    ghost predicate Scored()
      reads this, score
    {
      score.bumps == scoreBase + worth
    }

    ghost predicate Valid()
      reads this, ground, ground.chunks, score
    {
      Books() && ground.Valid() && score.Valid() && Scored()
    }

    /** The capturing specimens' objects. */
    ghost function Captured(): set<SpecimenComponent>
      reads this
    {
      set e | e in capturing.values :: capturing.values[e]
    }

    /** The live specimens' objects. */
    ghost function Objects(): set<SpecimenComponent>
      reads this
    {
      set e | e in specimens.values :: specimens.values[e]
    }

    constructor(rover: Rovers.RoverComponent, ground: Ground.GroundComponent, score: Score.ScoreComponent)
      ensures this.rover == rover && this.ground == ground && this.score == score
      ensures Books() && Scored() && specimens.keys == [] && capturing.keys == [] && nextHerdSize == None
      ensures bumped == [] && worth == [] && scoreBase == score.bumps
    {
      this.rover := rover;
      this.ground := ground;
      this.score := score;
      scoreBase := score.bumps;
      worth := [];
      specimens := Empty();
      capturing := Empty();
      nextHerdSize := None;
      nextEntity := 0;
      bumped := [];
    }

    /** `world.createEntity(Builders.specimen, ...)` (lines 126-129), which registers the specimen (lines 59-62). */
    method AddSpecimen(position: Vec3, kind: Kind) returns (e: nat, s: SpecimenComponent)
      requires Books()
      modifies this
      ensures Books()
      ensures fresh(s) && s.position == position && s.specimenType == kind && s.target == None && !s.paniced
      ensures e == old(nextEntity) && e !in old(specimens.values) && nextEntity == e + 1
      ensures specimens == old(specimens).Set(e, s) && specimens.keys == old(specimens.keys) + [e]
      ensures capturing == old(capturing) && bumped == old(bumped) && worth == old(worth) && nextHerdSize == old(nextHerdSize)
    {
      s := new SpecimenComponent(position, kind);
      e := nextEntity;
      LiveAdd(specimens, e, s);
      LedgerAdd(specimens, capturing, bumped, e, s);
      TallyAdd(specimens, bumped, worth, e, s);
      specimens := specimens.Set(e, s);
      nextEntity := nextEntity + 1;
    }

    /** `_getRandomVec3Around` (lines 151-158): draws the angle and returns the point. */
    method RandomAround(target: Vec3, distance: real) returns (p: Vec3)
      modifies ground.rng
      ensures p == Around(ground.math, target, distance, ground.rng.draws(old(ground.rng.cursor)))
      ensures ground.rng.cursor == old(ground.rng.cursor) + 1
    {
      var center := Vec3(1.0, 0.0, 0.0);
      var draw := ground.rng.Next();
      var theta := draw * 2.0 * Pi;
      center := Scale(center, distance);
      center := ground.math.RotateY(center, theta);
      p := Add(center, target);
    }

    /** Lines 111-115: the center of the next herd, in the tick's annulus around the rover. */
    method HerdCenter(initial: bool) returns (center: Vec3)
      requires ground.math.Valid() && ground.rng.InUnitInterval()
      modifies ground.rng
      ensures var (lo, hi) := SpawnRadii(initial);
        var c := old(ground.rng.cursor);
        center == Around(ground.math, rover.position, SpawnDistance(lo, hi, ground.rng.draws(c)), ground.rng.draws(c + 1))
      ensures InAnnulus(initial, center, rover.position)
      ensures ground.rng.cursor == old(ground.rng.cursor) + 2
    {
      var (minDistance, maxDistance) := SpawnRadii(initial);
      var r := ground.rng.Next();
      var distance := minDistance + (maxDistance - minDistance) * r;
      var angleDraw := ground.rng.draws(ground.rng.cursor);
      center := RandomAround(rover.position, distance);
      CenterInAnnulus(ground.math, rover.position, initial, r, angleDraw);
    }

    /** Lines 119-129: one herd member, less than MAX_HERD_RADIUS from the center, of a drawn kind. */
    method SpawnMember(center: Vec3) returns (e: nat, s: SpecimenComponent)
      requires Books() && ground.math.Valid() && ground.rng.InUnitInterval()
      modifies this, ground.rng
      ensures Books()
      ensures fresh(s) && Member(s, center)
      ensures var c := old(ground.rng.cursor);
        && s.specimenType == KindOf(ground.rng.draws(c + 2))
        && ground.rng.cursor == c + 3
      ensures e !in old(specimens.values) && specimens == old(specimens).Set(e, s)
      ensures Extends(old(specimens), specimens) && |specimens.keys| == |old(specimens.keys)| + 1
      ensures capturing == old(capturing) && bumped == old(bumped) && worth == old(worth) && nextHerdSize == old(nextHerdSize)
    {
      var r := ground.rng.Next();
      var distance := MaxHerdRadius * r;
      var angleDraw := ground.rng.draws(ground.rng.cursor);
      var position := RandomAround(center, distance);
      WithinHerdRadius(ground.math, center, r, angleDraw);
      var t := ground.rng.Next();
      var kind := KindOf(t);
      e, s := AddSpecimen(position, kind);
      ExtendsSet(old(specimens), e, s);
    }

    /** Lines 118-130: `count` new specimens, each less than MAX_HERD_RADIUS from the center. */
    method SpawnHerd(center: Vec3, count: int)
      requires Books() && ground.math.Valid() && ground.rng.InUnitInterval()
      modifies this, ground.rng
      ensures Books()
      ensures Extends(old(specimens), specimens)
      ensures forall e :: e in specimens.values && e !in old(specimens.values) ==> fresh(specimens.values[e])
      ensures |specimens.keys| == |old(specimens.keys)| + if count < 0 then 0 else count
      ensures forall j :: |old(specimens.keys)| <= j < |specimens.keys| ==>
        specimens.keys[j] in specimens.values && Member(specimens.values[specimens.keys[j]], center)
      ensures ground.rng.cursor == old(ground.rng.cursor) + 3 * (if count < 0 then 0 else count)
      ensures capturing == old(capturing) && bumped == old(bumped) && worth == old(worth) && nextHerdSize == old(nextHerdSize)
    {
      var i := 0;
      while i < count
        invariant 0 <= i && (i <= count || i == 0)
        invariant Books()
        invariant Extends(old(specimens), specimens) && |specimens.keys| == |old(specimens.keys)| + i
        invariant forall e :: e in specimens.values && e !in old(specimens.values) ==> fresh(specimens.values[e])
        invariant HerdFrom(|old(specimens.keys)|, center)
        invariant ground.rng.cursor == old(ground.rng.cursor) + 3 * i
        invariant capturing == old(capturing) && bumped == old(bumped) && worth == old(worth) && nextHerdSize == old(nextHerdSize)
      {
        SpawnNext(center, old(specimens));
        i := i + 1;
      }
    }

    /** The specimens from index n of the spawn order on are members of the herd about the center. */
    ghost predicate HerdFrom(n: int, center: Vec3)
      reads this, Objects()
    {
      forall j :: 0 <= n <= j < |specimens.keys| ==>
        specimens.keys[j] in specimens.values && Member(specimens.values[specimens.keys[j]], center)
    }

    /** One turn of the loop at lines 119-129, the herd so far spawned since `start`. */
    method SpawnNext(center: Vec3, ghost start: OrderedMap<nat, SpecimenComponent>)
      requires Books() && ground.math.Valid() && ground.rng.InUnitInterval()
      requires Extends(start, specimens) && HerdFrom(|start.keys|, center)
      modifies this, ground.rng
      ensures Books()
      ensures Extends(start, specimens) && |specimens.keys| == |old(specimens.keys)| + 1 && HerdFrom(|start.keys|, center)
      ensures Extends(old(specimens), specimens) && ground.rng.cursor == old(ground.rng.cursor) + 3
      ensures forall e :: e in specimens.values && e !in old(specimens.values) ==> fresh(specimens.values[e])
      ensures capturing == old(capturing) && bumped == old(bumped) && worth == old(worth) && nextHerdSize == old(nextHerdSize)
    {
      ghost var before := specimens;
      var e, s := SpawnMember(center);
      assert specimens.keys == before.keys + [e];
      ExtendsTrans(start, before, specimens);
    }

    /** Lines 111-131: one herd of the drawn size about a center drawn in the tick's annulus. */
    method SpawnNextHerd(initial: bool, count: int, ghost start: OrderedMap<nat, SpecimenComponent>, ghost centers: seq<Vec3>)
      returns (center: Vec3, ghost centers': seq<Vec3>)
      requires Books() && ground.math.Valid() && ground.rng.InUnitInterval()
      requires Extends(start, specimens) && PlacedFrom(|start.keys|, centers, initial)
      modifies this, ground.rng
      ensures Books()
      ensures var (lo, hi) := SpawnRadii(initial); var c := old(ground.rng.cursor);
        center == Around(ground.math, rover.position, SpawnDistance(lo, hi, ground.rng.draws(c)), ground.rng.draws(c + 1))
      ensures InAnnulus(initial, center, rover.position)
      ensures ground.rng.cursor == old(ground.rng.cursor) + 2 + 3 * (if count < 0 then 0 else count)
      ensures Extends(old(specimens), specimens)
      ensures forall e :: e in specimens.values && e !in old(specimens.values) ==> fresh(specimens.values[e])
      ensures |specimens.keys| == |old(specimens.keys)| + if count < 0 then 0 else count
      ensures HerdFrom(|old(specimens.keys)|, center)
      ensures centers' == centers + seq(if count < 0 then 0 else count, _ => center)
      ensures Extends(start, specimens) && PlacedFrom(|start.keys|, centers', initial)
      ensures capturing == old(capturing) && bumped == old(bumped) && worth == old(worth) && nextHerdSize == old(nextHerdSize)
    {
      center := HerdCenter(initial);
      SpawnHerd(center, count);
      centers' := centers + seq(if count < 0 then 0 else count, _ => center);
      ExtendsTrans(start, old(specimens), specimens);
    }

    /**
     * The specimens from index n of the spawn order on were spawned about
     * `centers`, one center each, every center in the tick's annulus about
     * the rover.
     */
    ghost predicate PlacedFrom(n: nat, centers: seq<Vec3>, initial: bool)
      reads this, rover, Objects()
    {
      && n + |centers| == |specimens.keys|
      && forall j :: 0 <= j < |centers| ==>
           && InAnnulus(initial, centers[j], rover.position)
           && specimens.keys[n + j] in specimens.values && Member(specimens.values[specimens.keys[n + j]], centers[j])
    }

    /** Lines 92-132: herds are added while the whole next herd still fits below MAX_SPECIMENS. */
    method Spawn() returns (ghost centers: seq<Vec3>)
      requires Books() && ground.math.Valid() && ground.rng.InUnitInterval()
      modifies this, ground.rng
      ensures Books()
      ensures PlacedFrom(old(|specimens.keys|), centers, old(|specimens.keys|) == 0)
      ensures old(|specimens.keys|) >= MaxSpecimens ==>
        specimens == old(specimens) && nextHerdSize == old(nextHerdSize) && ground.rng.cursor == old(ground.rng.cursor)
      ensures old(|specimens.keys|) < MaxSpecimens ==>
        && |specimens.keys| < MaxSpecimens
        && nextHerdSize.Some? && |specimens.keys| + nextHerdSize.value >= MaxSpecimens
      ensures Extends(old(specimens), specimens)
      ensures forall e :: e in specimens.values && e !in old(specimens.values) ==> fresh(specimens.values[e])
      ensures capturing == old(capturing) && bumped == old(bumped) && worth == old(worth)
    {
      var initial := specimens.Size() == 0;
      centers := [];
      while specimens.Size() < MaxSpecimens
        invariant Books()
        invariant PlacedFrom(old(|specimens.keys|), centers, initial)
        invariant old(|specimens.keys|) >= MaxSpecimens ==>
          specimens == old(specimens) && nextHerdSize == old(nextHerdSize) && ground.rng.cursor == old(ground.rng.cursor)
        invariant old(|specimens.keys|) < MaxSpecimens ==> |specimens.keys| < MaxSpecimens
        invariant Extends(old(specimens), specimens)
        invariant forall e :: e in specimens.values && e !in old(specimens.values) ==> fresh(specimens.values[e])
        invariant capturing == old(capturing) && bumped == old(bumped) && worth == old(worth)
        decreases MaxSpecimens - |specimens.keys|
      {
        var stop;
        stop, centers := SpawnTurn(initial, old(specimens), centers);
        if stop {
          break;
        }
      }
    }

    /**
     * One turn of the loop at lines 100-131: the herd size is drawn if none is
     * pending; the loop stops when that herd would reach MAX_SPECIMENS, and
     * otherwise the herd is spawned and no size is pending.
     */
    method SpawnTurn(initial: bool, ghost start: OrderedMap<nat, SpecimenComponent>, ghost centers: seq<Vec3>)
      returns (stop: bool, ghost centers': seq<Vec3>)
      requires Books() && ground.math.Valid() && ground.rng.InUnitInterval()
      requires Extends(start, specimens) && PlacedFrom(|start.keys|, centers, initial)
      requires |specimens.keys| < MaxSpecimens
      modifies this, ground.rng
      ensures Books()
      ensures Extends(start, specimens) && PlacedFrom(|start.keys|, centers', initial)
      ensures Extends(old(specimens), specimens)
      ensures forall e :: e in specimens.values && e !in old(specimens.values) ==> fresh(specimens.values[e])
      ensures capturing == old(capturing) && bumped == old(bumped) && worth == old(worth)
      ensures stop ==>
        && specimens == old(specimens)
        && nextHerdSize.Some? && |specimens.keys| + nextHerdSize.value >= MaxSpecimens
      ensures !stop ==> old(|specimens.keys|) < |specimens.keys| < MaxSpecimens && nextHerdSize.None?
    {
      if Unset(nextHerdSize) {
        var r := ground.rng.Next();
        nextHerdSize := Some(HerdSize(r));
      }
      if specimens.Size() + nextHerdSize.value >= MaxSpecimens {
        stop, centers' := true, centers;
      } else {
        var center;
        center, centers' := SpawnNextHerd(initial, nextHerdSize.value, start, centers);
        nextHerdSize := None;
        stop := false;
      }
    }

    /** Lines 179-188: within PANIC_RADIUS the specimen takes a home 64 away from the rover and drops its target. */
    method Panic(s: SpecimenComponent, distance: real)
      modifies s
      ensures distance < PanicRadius ==>
        && s.startPosition == Add(old(s.position), FleeOffset(ground.math, old(s.position), rover.position))
        && s.startPosition.y == s.position.y
        && s.paniced && s.target == None
      ensures distance >= PanicRadius ==>
        s.startPosition == old(s.startPosition) && s.paniced == old(s.paniced) && s.target == old(s.target)
      ensures s.position == old(s.position) && s.rotation == old(s.rotation)
      ensures s.surfaceRotation == old(s.surfaceRotation) && s.size == old(s.size)
    {
      if distance < PanicRadius {
        var newStart := Sub(rover.position, s.position);
        newStart := Vec3(newStart.x, 0.0, newStart.z);
        newStart := ground.math.Normalize(newStart);
        newStart := Scale(newStart, MinSpawnRadius * -1.0);
        s.startPosition := Add(s.position, newStart);
        s.paniced := true;
        s.target := None;
      }
    }

    /** Lines 190-194: a specimen without a target draws one less than MAX_HERD_RADIUS from its home. */
    method PickTarget(s: SpecimenComponent)
      requires ground.math.Valid() && ground.rng.InUnitInterval()
      modifies s, ground.rng
      ensures s.target.Some?
      ensures var c := old(ground.rng.cursor);
        old(s.target).None? ==>
          && s.target == Some(Around(ground.math, s.startPosition, MaxHerdRadius * ground.rng.draws(c), ground.rng.draws(c + 1)))
          && s.target.value.y == s.startPosition.y
          && HorizontalDistSq(s.target.value, s.startPosition) < MaxHerdRadius * MaxHerdRadius
          && ground.rng.cursor == c + 2
      ensures old(s.target).Some? ==> s.target == old(s.target) && ground.rng.cursor == old(ground.rng.cursor)
      ensures s.position == old(s.position) && s.startPosition == old(s.startPosition) && s.paniced == old(s.paniced)
      ensures s.rotation == old(s.rotation) && s.surfaceRotation == old(s.surfaceRotation) && s.size == old(s.size)
    {
      if s.target.None? {
        var r := ground.rng.Next();
        var distance := MaxHerdRadius * r;
        var angleDraw := ground.rng.draws(ground.rng.cursor);
        var target := RandomAround(s.startPosition, distance);
        WithinHerdRadius(ground.math, s.startPosition, r, angleDraw);
        s.target := Some(target);
      }
    }

    /** Lines 196-214: a step toward the target at the current speed; the target is dropped on arrival. */
    method Step(s: SpecimenComponent)
      requires ground.math.Valid()
      modifies s
      ensures WithinStep(s, old(s.position))
      ensures var speed := if s.paniced then s.panicSpeed else s.idleSpeed;
        && s.position == StepTo(ground.math, old(s.position), old(s.target), speed)
        && s.target == TargetAfter(ground.math, s.position, old(s.target), speed)
      ensures s.startPosition == old(s.startPosition) && s.paniced == old(s.paniced)
      ensures s.rotation == old(s.rotation) && s.surfaceRotation == old(s.surfaceRotation) && s.size == old(s.size)
    {
      if s.target.Some? {
        var speed := if s.paniced then s.panicSpeed else s.idleSpeed;
        var pos := Vec3(s.position.x, 0.0, s.position.z);
        var direction := Sub(s.target.value, pos);
        direction := ground.math.Normalize(direction);
        direction := Scale(direction, speed);
        s.position := Add(direction, s.position);
        if ground.math.sqrt(HorizontalDistSq(s.position, s.target.value)) <= speed {
          s.target := None;
        }
      }
      if old(s.target).Some? {
        StepWithin(ground.math, old(s.position), old(s.target).value, if s.paniced then s.panicSpeed else s.idleSpeed, s.position);
      } else {
        SquarePositive(if s.paniced then s.panicSpeed else s.idleSpeed);
      }
    }

    /** Lines 225-234: the specimen stands at the sampled height and blends toward the ground's orientation. */
    method Stand(s: SpecimenComponent, hn: Option<Ground.HeightNormal>)
      modifies s
      ensures hn.None? ==> s.position == old(s.position) && s.surfaceRotation == old(s.surfaceRotation)
      ensures hn.Some? ==>
        && s.position == Vec3(old(s.position.x), hn.value.height, old(s.position.z))
        && s.surfaceRotation == ground.math.slerp(old(s.surfaceRotation),
             ground.math.setAxes(hn.value.binormal, hn.value.tangent, hn.value.normal), 0.25)
      ensures s.startPosition == old(s.startPosition) && s.paniced == old(s.paniced) && s.target == old(s.target)
      ensures s.rotation == old(s.rotation) && s.size == old(s.size)
    {
      if hn.Some? {
        s.position := Vec3(s.position.x, hn.value.height, s.position.z);
        var newRotation := ground.math.setAxes(hn.value.binormal, hn.value.tangent, hn.value.normal);
        s.surfaceRotation := ground.math.slerp(s.surfaceRotation, newRotation, 0.25);
      }
    }

    /** Lines 216-235: the terrain under the specimen, if resident, holds it up (see `Stand`). */
    method LockHeight(s: SpecimenComponent) returns (hn: Option<Ground.HeightNormal>)
      requires ground.Valid()
      modifies s, set c | c in ground.chunks
      ensures ground.Valid() && unchanged(set c | c in ground.chunks)
      ensures hn.None? <==> ground.GetActiveChunk(old(s.position.x), old(s.position.z)).None?
      ensures hn.Some? ==> var t := ground.TerrainAt(old(s.position.x), old(s.position.z));
        hn.value.height == t.height && hn.value.normal == t.normal && hn.value.tangent == t.tangent && hn.value.binormal == t.binormal
      ensures hn.None? ==> s.position == old(s.position) && s.surfaceRotation == old(s.surfaceRotation)
      ensures hn.Some? ==>
        && s.position == Vec3(old(s.position.x), hn.value.height, old(s.position.z))
        && s.surfaceRotation == ground.math.slerp(old(s.surfaceRotation),
             ground.math.setAxes(hn.value.binormal, hn.value.tangent, hn.value.normal), 0.25)
      ensures s.position == OnTerrain(ground, ground.chunks, old(s.position))
      ensures s.surfaceRotation == SurfaceAt(ground, ground.chunks, old(s.surfaceRotation), old(s.position))
      ensures s.startPosition == old(s.startPosition) && s.paniced == old(s.paniced) && s.target == old(s.target)
      ensures s.rotation == old(s.rotation) && s.size == old(s.size)
    {
      hn := ground.GetHeightAndNormalAt(s.position.x, s.position.z);
      Stand(s, hn);
    }

    /**
     * Lines 179-235 from the pre-state to the current one: `s`, `distance` from
     * the rover, wandered (see `Wandered`) keeping its size, at most one step
     * of its speed horizontally.
     */
    twostate predicate Wanders(s: SpecimenComponent, distance: real)
      reads this, ground, ground.rng, rover, s
    {
      && WithinStep(s, old(s.position)) && s.size == old(s.size)
      && Wandered(ground, ground.chunks, rover.position, s, distance, old(PoseOf(s)), PoseOf(s), old(ground.rng.cursor), ground.rng.cursor)
    }

    /**
     * Lines 179-235: panic, target, step and height lock of a specimen neither
     * captured nor despawned. It moves at most one step of its current speed
     * horizontally.
     */
    method Wander(s: SpecimenComponent, distance: real)
      requires ground.Valid()
      modifies s, ground.rng, set c | c in ground.chunks
      ensures ground.Valid()
      ensures s.paniced == (old(s.paniced) || distance < PanicRadius)
      ensures distance < PanicRadius ==>
        s.startPosition == Add(old(s.position), FleeOffset(ground.math, old(s.position), rover.position))
      ensures distance >= PanicRadius ==> s.startPosition == old(s.startPosition)
      ensures Wanders(s, distance) && s.rotation == old(s.rotation)
    {
      Panic(s, distance);
      PickTarget(s);
      Move(s);
    }

    /** Lines 196-235: a step toward the target, then the height lock; at most one step horizontally. */
    method Move(s: SpecimenComponent)
      requires ground.Valid()
      modifies s, set c | c in ground.chunks
      ensures ground.Valid()
      ensures var speed := if s.paniced then s.panicSpeed else s.idleSpeed;
        var p := StepTo(ground.math, old(s.position), old(s.target), speed);
        && s.position == OnTerrain(ground, ground.chunks, p)
        && s.surfaceRotation == SurfaceAt(ground, ground.chunks, old(s.surfaceRotation), p)
        && s.target == TargetAfter(ground.math, p, old(s.target), speed)
      ensures WithinStep(s, old(s.position))
      ensures s.startPosition == old(s.startPosition) && s.paniced == old(s.paniced)
      ensures s.size == old(s.size) && s.rotation == old(s.rotation)
    {
      ghost var start := s.position;
      Step(s);
      ghost var stepped := s.position;
      var _ := LockHeight(s);
      SameColumn(s.position, stepped, start);
    }

    /**
     * `_update` (lines 160-237): a capturing specimen is skipped; any other is
     * handled by `Engage`. Only `e` can join `capturing`, and only a specimen
     * still not capturing leaves.
     */
    method UpdateOne(e: nat) returns (leaving: bool)
      requires Valid() && e in specimens.values
      modifies this, score, ground.rng, specimens.values[e], set c | c in ground.chunks
      ensures Valid()
      ensures specimens == old(specimens) && nextEntity == old(nextEntity) && nextHerdSize == old(nextHerdSize)
      ensures Extends(old(capturing), capturing)
      ensures bumped == old(bumped) + capturing.keys[|old(capturing.keys)|..]
      ensures forall d :: d != e ==> (capturing.Has(d) <==> old(capturing.Has(d)))
      ensures forall d :: d in specimens.values && d != e ==> unchanged(specimens.values[d])
      ensures forall k :: k in specimens.values ==> specimens.values[k].size == old(specimens.values[k].size)
      ensures leaving ==> !capturing.Has(e)
      ensures old(capturing.Has(e)) ==>
        && !leaving && unchanged(specimens.values[e]) && capturing == old(capturing)
        && bumped == old(bumped) && worth == old(worth) && score.bumps == old(score.bumps)
      ensures var s := specimens.values[e]; var distance := ground.math.Distance(old(s.position), rover.position);
        && (capturing.Has(e) <==> old(capturing.Has(e)) || Caught(false, distance, old(s.size.x)))
        && (leaving <==> Leaves(old(capturing.Has(e)), distance, old(s.size.x)))
      ensures var s := specimens.values[e]; var distance := ground.math.Distance(old(s.position), rover.position);
        var gained := if Caught(old(capturing.Has(e)), distance, old(s.size.x)) then [s.value] else [];
        score.bumps == old(score.bumps) + gained && worth == old(worth) + gained
      ensures var s := specimens.values[e]; var distance := ground.math.Distance(old(s.position), rover.position);
        !old(capturing.Has(e)) && !(distance < old(s.size.x)) && distance <= DespawnRadius ==> Wanders(s, distance)
    {
      if capturing.Has(e) {
        leaving := false;
      } else {
        leaving := Engage(e, specimens.values[e]);
      }
    }

    /**
     * Lines 163-237 for a specimen not capturing: one the rover reaches within
     * its size is captured and bumps the score; one farther than DESPAWN_RADIUS
     * leaves unchanged; any other wanders.
     */
    method Engage(e: nat, s: SpecimenComponent) returns (leaving: bool)
      requires Valid() && e in specimens.values && specimens.values[e] == s && !capturing.Has(e)
      modifies this, score, ground.rng, s, set c | c in ground.chunks
      ensures Valid()
      ensures specimens == old(specimens) && nextEntity == old(nextEntity) && nextHerdSize == old(nextHerdSize)
      ensures Extends(old(capturing), capturing) && bumped == old(bumped) + capturing.keys[|old(capturing.keys)|..]
      ensures forall d :: d in specimens.values && d != e ==> unchanged(specimens.values[d])
      ensures s.size == old(s.size)
      ensures var distance := ground.math.Distance(old(s.position), rover.position);
        distance < old(s.size.x) ==>
          && !leaving && unchanged(s) && capturing == old(capturing).Set(e, s)
          && bumped == old(bumped) + [e] && score.value == old(score.value) + s.value
          && score.bumps == old(score.bumps) + [s.value] && worth == old(worth) + [s.value]
      ensures var distance := ground.math.Distance(old(s.position), rover.position);
        !(distance < old(s.size.x)) && distance > DespawnRadius ==>
          && leaving && unchanged(s) && capturing == old(capturing)
          && bumped == old(bumped) && worth == old(worth) && score.bumps == old(score.bumps)
      ensures var distance := ground.math.Distance(old(s.position), rover.position);
        !(distance < old(s.size.x)) && distance <= DespawnRadius ==>
          && !leaving && capturing == old(capturing)
          && bumped == old(bumped) && worth == old(worth) && score.bumps == old(score.bumps)
          && Wanders(s, distance)
    {
      var distance := ground.math.Distance(s.position, rover.position);
      if distance < s.size.x {
        Capture(e, s);
        leaving := false;
      } else {
        label before:
        leaving := Roam(s, distance);
        assert Books() && score.Valid() && Scored() by {
          assert old@before(Books() && score.Valid() && Scored());
        }
      }
    }

    /** Lines 173-235: a specimen farther than DESPAWN_RADIUS leaves unchanged; any other wanders. */
    method Roam(s: SpecimenComponent, distance: real) returns (leaving: bool)
      requires ground.Valid()
      modifies s, ground.rng, set c | c in ground.chunks
      ensures ground.Valid()
      ensures leaving <==> distance > DespawnRadius
      ensures leaving ==> unchanged(s)
      ensures !leaving ==> Wanders(s, distance)
    {
      if distance > DespawnRadius {
        return true;
      }
      Wander(s, distance);
      leaving := false;
    }

    /** Lines 166-171: the specimen starts shrinking and its value is added to the score. */
    method Capture(e: nat, s: SpecimenComponent)
      requires Books() && score.Valid() && Scored()
      requires e in specimens.values && specimens.values[e] == s && !capturing.Has(e)
      modifies this, score
      ensures Books() && score.Valid() && Scored()
      ensures capturing == old(capturing).Set(e, s) && capturing.keys == old(capturing.keys) + [e]
      ensures capturing.keys[|old(capturing.keys)|..] == [e]
      ensures bumped == old(bumped) + [e] && score.value == old(score.value) + s.value
      ensures score.bumps == old(score.bumps) + [s.value] && worth == old(worth) + [s.value]
      ensures Extends(old(capturing), capturing)
      ensures specimens == old(specimens) && nextEntity == old(nextEntity) && nextHerdSize == old(nextHerdSize)
    {
      LedgerCapture(specimens, capturing, bumped, nextEntity, e);
      TallyCapture(specimens, bumped, worth, e);
      capturing := capturing.Set(e, s);
      score.Bump(s);
      bumped := bumped + [e];
      worth := worth + [s.value];
      ExtendsSet(old(capturing), e, s);
    }

    /**
     * Lines 134-137: every live specimen is updated in spawn order. Each one
     * the rover reaches within its size starts capturing and bumps the score
     * once; each one it leaves beyond DESPAWN_RADIUS is collected.
     */
    method UpdateAll() returns (despawn: seq<nat>)
      requires Valid()
      modifies this, score, ground.rng, Objects(), set c | c in ground.chunks
      ensures Valid()
      ensures specimens == old(specimens) && nextEntity == old(nextEntity) && nextHerdSize == old(nextHerdSize)
      ensures Extends(old(capturing), capturing)
      ensures bumped == old(bumped) + capturing.keys[|old(capturing.keys)|..]
      ensures old(worth) <= worth && score.bumps == old(score.bumps) + worth[|old(worth)|..]
      ensures forall k :: k in specimens.values ==> specimens.values[k].size == old(specimens.values[k].size)
      ensures forall d :: d in despawn ==> d in specimens.values && !capturing.Has(d)
      ensures forall j :: 0 <= j < |specimens.keys| ==>
        var k := specimens.keys[j];
        var distance := ground.math.Distance(old(specimens.values[k].position), rover.position);
        && (capturing.Has(k) <==> old(capturing.Has(k)) || Caught(false, distance, old(specimens.values[k].size.x)))
        && (k in despawn <==> Leaves(old(capturing.Has(k)), distance, old(specimens.values[k].size.x)))
      ensures forall e :: e in specimens.values ==>
        var distance := ground.math.Distance(old(specimens.values[e].position), rover.position);
        && (capturing.Has(e) <==> old(capturing.Has(e)) || Caught(false, distance, old(specimens.values[e].size.x)))
        && (e in despawn <==> Leaves(old(capturing.Has(e)), distance, old(specimens.values[e].size.x)))
    {
      ghost var pos, size, dist, was := Snapshot();
      despawn := UpdateLoop(pos, size, dist, was);
      BaseSplit(scoreBase, old(worth), worth);
      forall e | e in specimens.values
        ensures var distance := ground.math.Distance(old(specimens.values[e].position), rover.position);
          && (capturing.Has(e) <==> old(capturing.Has(e)) || Caught(false, distance, old(specimens.values[e].size.x)))
          && (e in despawn <==> Leaves(old(capturing.Has(e)), distance, old(specimens.values[e].size.x)))
      {
        var j :| 0 <= j < |specimens.keys| && specimens.keys[j] == e;
      }
    }

    /** The snapshots taken before the loop at lines 135-137 hold entity k's position, size, distance and capture. */
    ghost predicate Snapped(k: nat, pos: map<nat, Vec3>, size: map<nat, real>, dist: map<nat, real>, was: set<nat>)
      reads this, rover, Objects()
    {
      && k in specimens.values && k in pos && k in size && k in dist
      && pos[k] == specimens.values[k].position && size[k] == specimens.values[k].size.x
      && dist[k] == ground.math.Distance(pos[k], rover.position) && (k in was <==> capturing.Has(k))
    }

    /** Every live specimen is in the snapshots. */
    ghost predicate AllSnapped(pos: map<nat, Vec3>, size: map<nat, real>, dist: map<nat, real>, was: set<nat>)
      reads this, rover, Objects()
    {
      forall k :: k in specimens.values ==> Snapped(k, pos, size, dist, was)
    }

    /** The live specimens' positions, sizes, distances from the rover and captures, as the loop finds them. */
    ghost method Snapshot() returns (pos: map<nat, Vec3>, size: map<nat, real>, dist: map<nat, real>, was: set<nat>)
      requires Valid()
      ensures AllSnapped(pos, size, dist, was) && Pristine(0, pos, size, was)
      ensures forall k :: k in pos ==> k in dist && dist[k] == ground.math.Distance(pos[k], rover.position)
    {
      pos := map k | k in specimens.values :: specimens.values[k].position;
      size := map k | k in specimens.values :: specimens.values[k].size.x;
      dist := map k | k in specimens.values :: ground.math.Distance(pos[k], rover.position);
      was := capturing.values.Keys;
    }

    /**
     * The loop at lines 135-137, given the positions, sizes, distances from
     * the rover and capturing entities of its start: the specimens it let go
     * are despawned, the rest keep to `_update`'s outcome (see `Decided`).
     */
    method UpdateLoop(ghost pos: map<nat, Vec3>, ghost size: map<nat, real>, ghost dist: map<nat, real>, ghost was: set<nat>)
      returns (despawn: seq<nat>)
      requires Valid()
      requires forall k :: k in pos ==> k in dist && dist[k] == ground.math.Distance(pos[k], rover.position)
      requires Pristine(0, pos, size, was)
      modifies this, score, ground.rng, Objects(), set c | c in ground.chunks
      ensures Valid()
      ensures specimens == old(specimens) && nextEntity == old(nextEntity) && nextHerdSize == old(nextHerdSize)
      ensures Extends(old(capturing), capturing)
      ensures bumped == old(bumped) + capturing.keys[|old(capturing.keys)|..]
      ensures old(worth) <= worth
      ensures forall k :: k in specimens.values ==> specimens.values[k].size == old(specimens.values[k].size)
      ensures forall d :: d in despawn ==> d in specimens.values && !capturing.Has(d)
      ensures Decided(specimens.keys, capturing, |specimens.keys|, despawn, size, dist, was)
    {
      despawn := [];
      var ks := specimens.keys;
      var i := 0;
      while i < |ks|
        invariant 0 <= i <= |ks|
        invariant Valid()
        invariant specimens == old(specimens) && nextEntity == old(nextEntity) && nextHerdSize == old(nextHerdSize)
        invariant Extends(old(capturing), capturing)
        invariant bumped == old(bumped) + capturing.keys[|old(capturing.keys)|..]
        invariant old(worth) <= worth
        invariant forall k :: k in specimens.values ==> specimens.values[k].size == old(specimens.values[k].size)
        invariant forall d :: d in despawn ==> d in ks[..i] && !capturing.Has(d)
        invariant Decided(specimens.keys, capturing, i, despawn, size, dist, was) && Pristine(i, pos, size, was)
      {
        ghost var before, bumpedBefore := capturing, bumped;
        despawn := UpdateNext(i, despawn, pos, size, dist, was);
        TailChain(old(bumped), bumpedBefore, bumped, old(capturing.keys), before.keys, capturing.keys);
        ExtendsTrans(old(capturing), before, capturing);
        i := i + 1;
      }
    }

    /** The specimens from index i on are still as they were before the loop. */
    ghost predicate Pristine(i: int, pos: map<nat, Vec3>, size: map<nat, real>, was: set<nat>)
      reads this, Objects()
    {
      forall j :: 0 <= i <= j < |specimens.keys| && specimens.keys[j] in specimens.values ==>
        var k := specimens.keys[j];
        && (capturing.Has(k) <==> k in was)
        && k in pos && k in size
        && specimens.values[k].position == pos[k] && specimens.values[k].size.x == size[k]
    }

    /** One turn of the loop at lines 135-137: `_update` of the i-th live specimen. */
    method UpdateNext(i: int, despawn: seq<nat>, ghost pos: map<nat, Vec3>, ghost size: map<nat, real>,
                      ghost dist: map<nat, real>, ghost was: set<nat>) returns (despawn': seq<nat>)
      requires Valid() && 0 <= i < |specimens.keys|
      requires forall k :: k in pos ==> k in dist && dist[k] == ground.math.Distance(pos[k], rover.position)
      requires forall d :: d in despawn ==> d in specimens.keys[..i] && !capturing.Has(d)
      requires Decided(specimens.keys, capturing, i, despawn, size, dist, was) && Pristine(i, pos, size, was)
      modifies this, score, ground.rng, Objects(), set c | c in ground.chunks
      ensures Valid()
      ensures specimens == old(specimens) && nextEntity == old(nextEntity) && nextHerdSize == old(nextHerdSize)
      ensures Extends(old(capturing), capturing) && bumped == old(bumped) + capturing.keys[|old(capturing.keys)|..]
      ensures old(worth) <= worth
      ensures forall k :: k in specimens.values ==> specimens.values[k].size == old(specimens.values[k].size)
      ensures forall d :: d in despawn' ==> d in specimens.keys[..i + 1] && !capturing.Has(d)
      ensures Decided(specimens.keys, capturing, i + 1, despawn', size, dist, was) && Pristine(i + 1, pos, size, was)
    {
      var ks := specimens.keys;
      ghost var before := capturing;
      OthersDistinct(specimens, nextEntity, i);
      DistinctPrefix(ks, i);
      var e := ks[i];
      var leaving := UpdateOne(e);
      despawn' := if leaving then despawn + [e] else despawn;
      DecidedStep(ks, before, capturing, i, despawn, leaving, size, dist, was);
    }

    /**
     * Lines 138-145: every capturing specimen shrinks; the ones that fall
     * below MIN_SIZE are collected after `despawn`.
     */
    method ShrinkCaptured(despawn: seq<nat>) returns (gone: seq<nat>)
      requires Books()
      requires forall d :: d in despawn ==> d in specimens.values && !capturing.Has(d)
      modifies this, Captured()
      ensures Pending(Elements(gone))
      ensures forall d :: d in gone ==> d in specimens.values
      ensures specimens == old(specimens) && bumped == old(bumped) && worth == old(worth)
      ensures nextEntity == old(nextEntity) && nextHerdSize == old(nextHerdSize)
      ensures forall e :: e in old(specimens.values) ==> var s := old(specimens.values[e]);
        && (old(capturing.Has(e)) ==> s.size == Scale(old(s.size), CaptureSpeed))
        && (!old(capturing.Has(e)) ==> s.size == old(s.size))
      ensures forall e :: capturing.Has(e) <==>
        old(capturing.Has(e)) && old(specimens.values[e].size.x) * CaptureSpeed >= MinSize
      ensures forall d :: d in gone <==>
        d in despawn || (old(capturing.Has(d)) && old(specimens.values[d].size.x) * CaptureSpeed < MinSize)
    {
      assert forall e :: e in capturing.values ==> e in specimens.values && capturing.values[e] == specimens.values[e];
      DistinctOwners(capturing, specimens);
      var live, small := ShrinkAll(capturing);
      gone := despawn + small;
      LedgerShrunk(specimens, capturing, live, bumped, nextEntity, Elements(gone));
      capturing := live;
    }

    /**
     * Lines 146-148: each collected entity is removed from the world, which
     * drops its specimen (lines 78-81).
     */
    method RemoveAll(gone: seq<nat>)
      requires Pending(Elements(gone))
      modifies this
      ensures Books()
      ensures forall e :: e in specimens.values <==> e in old(specimens.values) && e !in gone
      ensures forall e :: e in specimens.values ==> specimens.values[e] == old(specimens.values)[e]
      ensures |specimens.keys| <= old(|specimens.keys|)
      ensures capturing == old(capturing) && bumped == old(bumped) && worth == old(worth)
      ensures nextEntity == old(nextEntity) && nextHerdSize == old(nextHerdSize)
    {
      var i := 0;
      while i < |gone|
        invariant 0 <= i <= |gone|
        invariant Pending(Elements(gone))
        invariant forall e :: e in specimens.values <==> e in old(specimens.values) && e !in gone[..i]
        invariant forall e :: e in specimens.values ==> specimens.values[e] == old(specimens.values)[e]
        invariant |specimens.keys| <= old(|specimens.keys|)
        invariant capturing == old(capturing) && bumped == old(bumped) && worth == old(worth)
        invariant nextEntity == old(nextEntity) && nextHerdSize == old(nextHerdSize)
      {
        Remove(gone[i], Elements(gone));
        assert gone[..i + 1] == gone[..i] + [gone[i]];
        i := i + 1;
      }
      assert gone[..i] == gone;
      LedgerSettled(specimens, capturing, bumped, nextEntity, Elements(gone));
    }

    /** Line 147: `world.removeEntity` of one collected entity drops its specimen. */
    method Remove(d: nat, ghost gone: set<nat>)
      requires Pending(gone) && d in gone
      modifies this
      ensures Pending(gone)
      ensures specimens.values == old(specimens.values) - {d} && |specimens.keys| <= old(|specimens.keys|)
      ensures capturing == old(capturing) && bumped == old(bumped) && worth == old(worth)
      ensures nextEntity == old(nextEntity) && nextHerdSize == old(nextHerdSize)
    {
      LiveRemove(specimens, nextEntity, d);
      LedgerRemove(specimens, capturing, bumped, nextEntity, gone, d);
      TallyRemove(specimens, bumped, worth, d);
      specimens := specimens.Delete(d);
    }

    /**
     * `simulate` (lines 84-149): herds are spawned, every specimen is updated,
     * the captured ones shrink, and the collected entities are removed. The
     * population stays below MAX_SPECIMENS once it is, and bumps are only
     * ever appended, so no entity bumps the score twice.
     */
    method Simulate()
      requires Valid()
      modifies this, score, ground.rng, Objects(), set c | c in ground.chunks
      ensures Valid()
      ensures |specimens.keys| < MaxSpecimens || |specimens.keys| <= old(|specimens.keys|)
      ensures old(bumped) <= bumped && old(worth) <= worth
      ensures score.bumps == old(score.bumps) + worth[|old(worth)|..]
      ensures forall e :: e in old(specimens.values) ==> var s := old(specimens.values[e]);
        Aged(old(capturing.Has(e)), ground.math.Distance(old(s.position), rover.position), old(s.size), s.size,
             capturing.Has(e), e in specimens.values)
      ensures forall e :: e in old(specimens.values) && e in specimens.values ==> specimens.values[e] == old(specimens.values[e])
    {
      ghost var _ := Populate();
      label spawned:
      Advance();
      forall e | e in old(specimens.values)
        ensures var s := old(specimens.values[e]);
          Aged(old(capturing.Has(e)), ground.math.Distance(old(s.position), rover.position), old(s.size), s.size,
               capturing.Has(e), e in specimens.values)
      {
        var s := old(specimens.values[e]);
        assert e in old@spawned(specimens.values) && old@spawned(specimens.values[e]) == s;
        assert old@spawned(capturing.Has(e)) == old(capturing.Has(e));
        assert old@spawned(s.position) == old(s.position) && old@spawned(s.size) == old(s.size);
      }
    }

    /**
     * Lines 134-148: every live specimen is updated, the captured ones shrink
     * by CAPTURE_SPEED, and those below MIN_SIZE or left beyond DESPAWN_RADIUS
     * are removed; every other one stays, under the same entity.
     */
    method Advance()
      requires Valid()
      modifies this, score, ground.rng, Objects(), set c | c in ground.chunks
      ensures Valid()
      ensures |specimens.keys| <= old(|specimens.keys|)
      ensures nextEntity == old(nextEntity) && nextHerdSize == old(nextHerdSize)
      ensures old(bumped) <= bumped && old(worth) <= worth
      ensures score.bumps == old(score.bumps) + worth[|old(worth)|..]
      ensures forall e :: e in old(specimens.values) ==> var s := old(specimens.values[e]);
        Aged(old(capturing.Has(e)), ground.math.Distance(old(s.position), rover.position), old(s.size), s.size,
             capturing.Has(e), e in specimens.values)
      ensures forall e :: e in specimens.values ==> e in old(specimens.values) && specimens.values[e] == old(specimens.values[e])
    {
      ghost var live := specimens.values;
      ghost var size := map e | e in live :: live[e].size;
      ghost var was := capturing;
      var despawn := UpdateAll();
      CapturedLive();
      Settle(despawn);
      forall e | e in live
        ensures Aged(was.Has(e), ground.math.Distance(old(live[e].position), rover.position), size[e], live[e].size,
                     capturing.Has(e), e in specimens.values)
      {
      }
      BaseSplit(scoreBase, old(worth), worth);
    }

    /**
     * Lines 92-132 within a tick: spawning keeps the whole state valid. Below
     * MAX_SPECIMENS, herds are added until the pending herd would reach it,
     * each about a center in the tick's annulus about the rover.
     */
    method Populate() returns (ghost centers: seq<Vec3>)
      requires Valid()
      modifies this, ground.rng
      ensures Valid()
      ensures PlacedFrom(old(|specimens.keys|), centers, old(|specimens.keys|) == 0)
      ensures old(|specimens.keys|) >= MaxSpecimens ==> specimens == old(specimens) && nextHerdSize == old(nextHerdSize)
      ensures old(|specimens.keys|) < MaxSpecimens ==>
        && |specimens.keys| < MaxSpecimens
        && nextHerdSize.Some? && |specimens.keys| + nextHerdSize.value >= MaxSpecimens
      ensures |specimens.keys| < MaxSpecimens || |specimens.keys| <= old(|specimens.keys|)
      ensures capturing == old(capturing) && bumped == old(bumped) && worth == old(worth)
      ensures Extends(old(specimens), specimens)
      ensures forall e :: e in specimens.values && e !in old(specimens.values) ==> fresh(specimens.values[e])
    {
      centers := Spawn();
    }

    /** Capturing specimens are live ones. */
    lemma CapturedLive()
      requires Books()
      ensures Captured() <= Objects()
    {}

    /** Lines 138-148: the captured specimens shrink and the collected entities are removed. */
    method Settle(despawn: seq<nat>)
      requires Valid()
      requires forall d :: d in despawn ==> d in specimens.values && !capturing.Has(d)
      modifies this, Captured()
      ensures Valid()
      ensures |specimens.keys| <= old(|specimens.keys|)
      ensures bumped == old(bumped) && worth == old(worth)
      ensures nextEntity == old(nextEntity) && nextHerdSize == old(nextHerdSize)
      ensures forall e :: e in old(specimens.values) ==> var s := old(specimens.values[e]);
        && (old(capturing.Has(e)) ==> s.size == Scale(old(s.size), CaptureSpeed))
        && (!old(capturing.Has(e)) ==> s.size == old(s.size))
      ensures forall e :: capturing.Has(e) <==>
        old(capturing.Has(e)) && old(specimens.values[e].size.x) * CaptureSpeed >= MinSize
      ensures forall e :: e in specimens.values <==>
        && e in old(specimens.values) && e !in despawn
        && !(old(capturing.Has(e)) && old(specimens.values[e].size.x) * CaptureSpeed < MinSize)
      ensures forall e :: e in specimens.values ==> specimens.values[e] == old(specimens.values[e])
    {
      var gone := ShrinkCaptured(despawn);
      RemoveAll(gone);
    }
  }

  /** The specimen map is well formed, its entities are below `next`, and distinct entities own distinct specimens. */
  ghost predicate Live(specimens: OrderedMap<nat, SpecimenComponent>, next: nat) {
    && specimens.Valid()
    && (forall e :: e in specimens.values ==> e < next)
    && (forall a, b :: a in specimens.values && b in specimens.values && a != b ==> specimens.values[a] != specimens.values[b])
  }

  /**
   * Every capturing specimen is live under the same entity, no entity was
   * bumped twice, bumped entities were handed out, and a live specimen outside
   * `gone` has been bumped exactly when it is capturing; none of `gone` is
   * capturing.
   */
  ghost predicate Ledger(specimens: OrderedMap<nat, SpecimenComponent>, capturing: OrderedMap<nat, SpecimenComponent>,
                         bumped: seq<nat>, next: nat, gone: set<nat>) {
    && capturing.Valid()
    && (forall e :: e in capturing.values ==> e in specimens.values && capturing.values[e] == specimens.values[e])
    && Distinct(bumped)
    && (forall i :: 0 <= i < |bumped| ==> bumped[i] < next)
    && (forall e :: e in specimens.values && e !in gone ==> (e in bumped <==> e in capturing.values))
    && (forall e :: e in gone ==> e !in capturing.values)
  }

  /**
   * One value per bumped entity, and a bumped entity still live is worth its
   * specimen's value.
   */
  ghost predicate Tally(specimens: OrderedMap<nat, SpecimenComponent>, bumped: seq<nat>, worth: seq<int>) {
    && |worth| == |bumped|
    && forall i :: 0 <= i < |bumped| && bumped[i] in specimens.values ==> worth[i] == specimens.values[bumped[i]].value
  }

  /** A new specimen is worth nothing yet: the tally is kept. */
  lemma TallyAdd(specimens: OrderedMap<nat, SpecimenComponent>, bumped: seq<nat>, worth: seq<int>, next: nat, s: SpecimenComponent)
    requires specimens.Valid() && Tally(specimens, bumped, worth)
    requires forall i :: 0 <= i < |bumped| ==> bumped[i] < next
    ensures Tally(specimens.Set(next, s), bumped, worth)
  {}

  /** A capture adds its specimen's value to the tally. */
  lemma TallyCapture(specimens: OrderedMap<nat, SpecimenComponent>, bumped: seq<nat>, worth: seq<int>, e: nat)
    requires Tally(specimens, bumped, worth) && e in specimens.values
    ensures Tally(specimens, bumped + [e], worth + [specimens.values[e].value])
  {}

  /** Removing an entity keeps the tally of the others. */
  lemma TallyRemove(specimens: OrderedMap<nat, SpecimenComponent>, bumped: seq<nat>, worth: seq<int>, d: nat)
    requires specimens.Valid() && Tally(specimens, bumped, worth)
    ensures Tally(specimens.Delete(d), bumped, worth)
  {}

  /** A new entity with a specimen nobody owns keeps the specimens live. */
  lemma LiveAdd(specimens: OrderedMap<nat, SpecimenComponent>, next: nat, s: SpecimenComponent)
    requires Live(specimens, next)
    requires forall e :: e in specimens.values ==> specimens.values[e] != s
    ensures Live(specimens.Set(next, s), next + 1)
  {}

  lemma LiveRemove(specimens: OrderedMap<nat, SpecimenComponent>, next: nat, d: nat)
    requires Live(specimens, next)
    ensures Live(specimens.Delete(d), next)
  {}

  /** A new entity has never been bumped nor captured. */
  lemma LedgerAdd(specimens: OrderedMap<nat, SpecimenComponent>, capturing: OrderedMap<nat, SpecimenComponent>,
                  bumped: seq<nat>, next: nat, s: SpecimenComponent)
    requires Live(specimens, next) && Ledger(specimens, capturing, bumped, next, {})
    ensures Ledger(specimens.Set(next, s), capturing, bumped, next + 1, {})
  {
    assert next !in bumped;
  }

  /** A capture records the entity in both the capturing map and the bumps. */
  lemma LedgerCapture(specimens: OrderedMap<nat, SpecimenComponent>, capturing: OrderedMap<nat, SpecimenComponent>,
                      bumped: seq<nat>, next: nat, e: nat)
    requires Live(specimens, next) && Ledger(specimens, capturing, bumped, next, {})
    requires e in specimens.values && e !in capturing.values
    ensures Ledger(specimens, capturing.Set(e, specimens.values[e]), bumped + [e], next, {})
  {
    assert e !in bumped;
  }

  /** Entities that stopped capturing, and others not capturing, can be collected. */
  lemma LedgerShrunk(specimens: OrderedMap<nat, SpecimenComponent>, cap: OrderedMap<nat, SpecimenComponent>,
                     cap': OrderedMap<nat, SpecimenComponent>, bumped: seq<nat>, next: nat, gone: set<nat>)
    requires Ledger(specimens, cap, bumped, next, {}) && cap'.Valid()
    requires forall e :: e in cap'.values ==> e in cap.values && cap'.values[e] == cap.values[e]
    requires forall e :: e in cap.values && e !in cap'.values ==> e in gone
    requires forall d :: d in gone ==> d !in cap'.values
    ensures Ledger(specimens, cap', bumped, next, gone)
  {}

  /** A collected entity can be removed. */
  lemma LedgerRemove(specimens: OrderedMap<nat, SpecimenComponent>, capturing: OrderedMap<nat, SpecimenComponent>,
                     bumped: seq<nat>, next: nat, gone: set<nat>, d: nat)
    requires specimens.Valid() && Ledger(specimens, capturing, bumped, next, gone) && d in gone
    ensures Ledger(specimens.Delete(d), capturing, bumped, next, gone)
  {}

  /** Once no collected entity is live, nothing is waiting for removal. */
  lemma LedgerSettled(specimens: OrderedMap<nat, SpecimenComponent>, capturing: OrderedMap<nat, SpecimenComponent>,
                      bumped: seq<nat>, next: nat, gone: set<nat>)
    requires Ledger(specimens, capturing, bumped, next, gone)
    requires forall e :: e in gone ==> e !in specimens.values
    ensures Ledger(specimens, capturing, bumped, next, {})
  {}

  /** The specimen lies at most one step of its current speed from `from`, measured horizontally. */
  ghost predicate WithinStep(s: SpecimenComponent, from: Vec3)
    reads s
  {
    var speed := if s.paniced then s.panicSpeed else s.idleSpeed;
    HorizontalDistSq(s.position, from) <= speed * speed
  }

  /** A herd member as spawned: at the center's height and less than MAX_HERD_RADIUS from it. */
  ghost predicate Member(s: SpecimenComponent, center: Vec3)
    reads s
  {
    && s.position.y == center.y
    && HorizontalDistSq(s.position, center) < MaxHerdRadius * MaxHerdRadius
    && s.target == None && !s.paniced
  }

  /** A step, whatever happens to the height afterwards, moves at most `speed` horizontally. */
  lemma StepWithin(math: MathLib, position: Vec3, target: Vec3, speed: real, final: Vec3)
    requires math.Valid()
    requires final.x == StepToward(math, position, target, speed).x
    requires final.z == StepToward(math, position, target, speed).z
    ensures HorizontalDistSq(final, position) <= speed * speed
  {
    StepLength(math, position, target, speed);
    HorizontalWithin(StepToward(math, position, target, speed), position, final);
    SquarePositive(speed);
  }

  function Elements(s: seq<nat>): set<nat> {
    set d | d in s
  }

  /** Appends recorded alongside a growing sequence compose. */
  lemma TailChain<T>(b0: seq<T>, b1: seq<T>, b2: seq<T>, k0: seq<T>, k1: seq<T>, k2: seq<T>)
    requires k0 <= k1 <= k2
    requires b1 == b0 + k1[|k0|..] && b2 == b1 + k2[|k1|..]
    ensures b2 == b0 + k2[|k0|..]
  {
    assert k2[|k0|..] == k1[|k0|..] + k2[|k1|..];
  }

  /** With the base fixed, the score's new bumps are the new part of the tally. */
  lemma BaseSplit(base: seq<int>, w0: seq<int>, w: seq<int>)
    requires w0 <= w
    ensures base + w == (base + w0) + w[|w0|..]
  {
    assert w == w0 + w[|w0|..];
  }

  /**
   * The entities keys[..i] have been through `_update` (lines 161-177),
   * starting from the sizes, distances from the rover and captures of the
   * loop's start: captured exactly when already capturing or reached within
   * their size, collected for despawn exactly when `Leaves` says so.
   */
  ghost predicate Decided(keys: seq<nat>, capturing: OrderedMap<nat, SpecimenComponent>, i: int, despawn: seq<nat>,
                          size: map<nat, real>, dist: map<nat, real>, was: set<nat>)
  {
    forall j :: 0 <= j < i && j < |keys| && keys[j] in size && keys[j] in dist ==>
      var k := keys[j];
      && (capturing.Has(k) <==> k in was || Caught(false, dist[k], size[k]))
      && (k in despawn <==> Leaves(k in was, dist[k], size[k]))
  }

  /** One more entity through `_update`, no other capture touched: `Decided` moves on by one. */
  lemma DecidedStep(keys: seq<nat>, c0: OrderedMap<nat, SpecimenComponent>, c1: OrderedMap<nat, SpecimenComponent>,
                    i: int, despawn: seq<nat>, leaving: bool, size: map<nat, real>, dist: map<nat, real>, was: set<nat>)
    requires 0 <= i < |keys| && keys[i] !in keys[..i]
    requires Decided(keys, c0, i, despawn, size, dist, was)
    requires forall d :: d != keys[i] ==> (c1.Has(d) <==> c0.Has(d))
    requires keys[i] !in despawn
    requires keys[i] in size && keys[i] in dist ==>
      var k := keys[i];
      && (c1.Has(k) <==> k in was || Caught(false, dist[k], size[k]))
      && (leaving <==> Leaves(k in was, dist[k], size[k]))
    ensures Decided(keys, c1, i + 1, if leaving then despawn + [keys[i]] else despawn, size, dist, was)
  {
    var despawn' := if leaving then despawn + [keys[i]] else despawn;
    forall j | 0 <= j < i + 1 && j < |keys| && keys[j] in size && keys[j] in dist
      ensures var k := keys[j];
        && (c1.Has(k) <==> k in was || Caught(false, dist[k], size[k]))
        && (k in despawn' <==> Leaves(k in was, dist[k], size[k]))
    {
      if j < i {
        assert keys[j] in keys[..i];
      }
    }
  }

  /** Distinct entities own distinct specimens, so no other entity's specimen is the one at `keys[i]`. */
  lemma OthersDistinct(specimens: OrderedMap<nat, SpecimenComponent>, next: nat, i: nat)
    requires Live(specimens, next) && i < |specimens.keys|
    ensures forall j :: 0 <= j < |specimens.keys| && j != i ==>
      specimens.keys[j] in specimens.values && specimens.values[specimens.keys[j]] != specimens.values[specimens.keys[i]]
  {
    DistinctAt(specimens.keys, i);
  }

  lemma DistinctAt<T>(s: seq<T>, i: nat)
    requires Distinct(s) && i < |s|
    ensures forall j :: 0 <= j < |s| && j != i ==> s[j] != s[i]
  {}

  /**
   * Lines 140-144 for one capturing entity: its specimen shrinks by
   * CAPTURE_SPEED and, once below MIN_SIZE, stops capturing and is collected.
   */
  method ShrinkOne(e: nat, s: SpecimenComponent, cap: OrderedMap<nat, SpecimenComponent>)
    returns (small: bool, cap': OrderedMap<nat, SpecimenComponent>)
    requires cap.Valid() && cap.Has(e) && cap.values[e] == s
    modifies s
    ensures cap'.Valid()
    ensures s.size == Scale(old(s.size), CaptureSpeed)
    ensures small <==> s.size.x < MinSize
    ensures cap' == if small then cap.Delete(e) else cap
    ensures e in cap'.values <==> !small
    ensures forall k :: k != e ==> (k in cap'.values <==> k in cap.values)
    ensures forall k :: k != e && k in cap'.values ==> cap'.values[k] == cap.values[k]
  {
    s.size := Scale(s.size, CaptureSpeed);
    small := s.size.x < MinSize;
    cap' := if small then cap.Delete(e) else cap;
  }

  /**
   * The loop of lines 138-145 over the capturing map `cap`: every specimen
   * shrinks once; `live` keeps the ones still at least MIN_SIZE and `small`
   * lists the others.
   */
  method ShrinkAll(cap: OrderedMap<nat, SpecimenComponent>) returns (live: OrderedMap<nat, SpecimenComponent>, small: seq<nat>)
    requires cap.Valid()
    requires forall a, b :: a in cap.values && b in cap.values && a != b ==> cap.values[a] != cap.values[b]
    modifies set e | e in cap.values :: cap.values[e]
    ensures live.Valid()
    ensures forall e :: e in live.values ==> e in cap.values && live.values[e] == cap.values[e]
    ensures forall e :: e in cap.values ==> cap.values[e].size == Scale(old(cap.values[e].size), CaptureSpeed)
    ensures forall e :: e in cap.values ==> (e in live.values <==> cap.values[e].size.x >= MinSize)
    ensures forall d :: d in small <==> d in cap.values && d !in live.values
  {
    var ks := cap.keys;
    live := cap;
    small := [];
    ghost var done: set<nat> := {};
    var i := 0;
    while i < |ks|
      invariant 0 <= i <= |ks|
      invariant live.Valid()
      invariant forall e :: e in live.values ==> e in cap.values && live.values[e] == cap.values[e]
      invariant forall j :: 0 <= j < i ==> ks[j] in done
      invariant forall j :: i <= j < |ks| ==> ks[j] !in done
      invariant forall e :: e in done ==> e in cap.values
      invariant forall e :: e in cap.values && e !in done ==>
        e in live.values && cap.values[e].size == old(cap.values[e].size)
      invariant forall e :: e in done ==> cap.values[e].size == Scale(old(cap.values[e].size), CaptureSpeed)
      invariant forall e :: e in done ==> (e in live.values <==> cap.values[e].size.x >= MinSize)
      invariant forall d :: d in small <==> d in done && d !in live.values
    {
      var e := ks[i];
      DistinctAt(ks, i);
      var shrunk;
      label Before:
      shrunk, live := ShrinkOne(e, live.values[e], live);
      assert forall k :: k in cap.values && k != e ==> cap.values[k].size == old@Before(cap.values[k].size);
      if shrunk {
        small := small + [e];
      }
      done := done + {e};
      i := i + 1;
    }
  }

  /** Distinct capturing entities own distinct specimens. */
  lemma DistinctOwners(cap: OrderedMap<nat, SpecimenComponent>, specimens: OrderedMap<nat, SpecimenComponent>)
    requires forall e :: e in cap.values ==> e in specimens.values && cap.values[e] == specimens.values[e]
    requires forall a, b :: a in specimens.values && b in specimens.values && a != b ==> specimens.values[a] != specimens.values[b]
    ensures forall a, b :: a in cap.values && b in cap.values && a != b ==> cap.values[a] != cap.values[b]
  {}

  lemma DistinctPrefix<T>(s: seq<T>, i: nat)
    requires Distinct(s) && i < |s|
    ensures s[i] !in s[..i]
  {}

  lemma SameColumn(a: Vec3, b: Vec3, c: Vec3)
    requires a.x == b.x && a.z == b.z
    ensures HorizontalDistSq(a, c) == HorizontalDistSq(b, c)
  {}

  /** The horizontal move is at most the full move, and does not change when only the height does. */
  lemma HorizontalWithin(stepped: Vec3, start: Vec3, final: Vec3)
    requires final.x == stepped.x && final.z == stepped.z
    ensures HorizontalDistSq(final, start) <= DistSq(stepped, start)
  {
    SquarePositive(stepped.y - start.y);
  }

  /** `!this._nextHerdSize`: no herd size drawn yet (null), or a zero one. */
  predicate Unset(h: Option<int>) {
    h.None? || h.value == 0
  }
}
