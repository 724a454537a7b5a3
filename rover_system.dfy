/**
 * `RoverSystem.simulate`: one tick of the rover. Fuel is drained or recharged,
 * the keys turn the rover and push it along the ground, gravity, the ground's
 * reaction and friction change its velocity, the speed is capped, and the new
 * position is pushed out of obstacles and kept on top of the terrain.
 */
module RoverSim {
  import opened Wrappers
  import opened Vectors
  import opened Rovers
  import Ground
  import Terrain

  const MovementForce: real := 1.5
  const BoostForceMultiplier: real := 4.0
  const RotationSpeed: real := 0.05
  const BoostRotationMultiplier: real := 0.1
  const BoostDrain: real := 1.5
  const BoostRecharge: real := 1.0
  const VelocityRotationMultiplier: real := 0.5
  const Gravity: real := -0.5
  const GroundFriction: real := 0.05
  const MinVelocity: real := 0.02
  const MaxVelocity: real := 0.22
  const MaxBoostVelocity: real := 0.44
  const MinVisibility: real := 32.0
  const MaxVisibility: real := 128.0
  const ImpactElasticity: real := 0.25

  /** FORWARD: the rover's nose in its own frame. */
  const Forward := Vec3(0.0, 0.0, -1.0)

  /** The keys `simulate` reads from the key map (a key never pressed reads as up). */
  datatype Keys = Keys(space: bool, arrowUp: bool, arrowLeft: bool, arrowDown: bool, arrowRight: bool,
                       w: bool, a: bool, s: bool, d: bool)
  {
    /** Any of the eight direction keys. */
    predicate Steering() {
      arrowUp || arrowLeft || arrowDown || arrowRight || w || a || s || d
    }

    /** Left minus right: 1 turns left, -1 turns right. */
    function TurnInput(): (t: int)
      ensures -1 <= t <= 1
      ensures t != 0 ==> Steering()
      ensures t == 1 <==> (arrowLeft || a) && !(arrowRight || d)
      ensures t == -1 <==> (arrowRight || d) && !(arrowLeft || a)
    {
      (if arrowLeft || a then 1 else 0) - (if arrowRight || d then 1 else 0)
    }

    /** Back minus forward: -1 drives along the nose, 1 reverses. */
    function ThrustInput(): (t: int)
      ensures -1 <= t <= 1
      ensures t != 0 ==> Steering()
    {
      (if arrowDown || s then 1 else 0) - (if arrowUp || w then 1 else 0)
    }
  }

  /** `Math.max(Math.min(100, v), 0)`. */
  function Clamp(v: real): (r: real)
    ensures 0.0 <= r <= FullBoost
    ensures 0.0 <= v <= FullBoost ==> r == v
    ensures v < 0.0 ==> r == 0.0
    ensures v > FullBoost ==> r == FullBoost
  {
    var m := if FullBoost < v then FullBoost else v;
    if m < 0.0 then 0.0 else m
  }

  /** Fuel after one tick: 1.5 less while space is held, 1 more otherwise, within [0, 100]. */
  function BoostStep(remaining: real, space: bool): (r: real)
    ensures 0.0 <= r <= FullBoost
    ensures 0.0 <= remaining <= FullBoost && space ==> r == if remaining < BoostDrain then 0.0 else remaining - BoostDrain
    ensures 0.0 <= remaining <= FullBoost && !space ==> r == if remaining > FullBoost - BoostRecharge then FullBoost else remaining + BoostRecharge
  {
    Clamp(remaining + if space then -BoostDrain else BoostRecharge)
  }

  /** `keys.get(' ') && boostRemaining`: the number is truthy when it is not 0. */
  function BoostOn(space: bool, remaining: real): (b: bool)
    ensures 0.0 <= remaining ==> (b <==> space && remaining > 0.0)
  {
    space && remaining != 0.0
  }

  /** The turn rate: a tenth while boosting, otherwise falling linearly with speed. */
  function RotationSpeedFor(math: MathLib, boost: bool, velocity: Vec3): real {
    RotationSpeed * (if boost then BoostRotationMultiplier
                     else 1.0 - (math.Length(velocity) / MaxVelocity) * VelocityRotationMultiplier)
  }

  /** At speeds up to MAX_BOOST_VELOCITY the turn rate lies in [0, ROTATION_SPEED]. */
  lemma RotationSpeedBounds(math: MathLib, boost: bool, velocity: Vec3)
    requires math.Valid() && LengthSq(velocity) <= MaxBoostVelocity * MaxBoostVelocity
    ensures 0.0 <= RotationSpeedFor(math, boost, velocity) <= RotationSpeed
  {
    LengthSqNonNegative(velocity);
    math.SqrtCompare(LengthSq(velocity), MaxBoostVelocity);
    math.SqrtFacts(LengthSq(velocity));
    FactorBounds(math.Length(velocity));
  }

  lemma FactorBounds(len: real)
    requires 0.0 <= len <= MaxBoostVelocity
    ensures 0.0 <= 1.0 - (len / MaxVelocity) * VelocityRotationMultiplier <= 1.0
  {}

  /** `theta ? (theta > 0 ? 1 : -1) : 0`. */
  function Sign(theta: real): (t: int)
    ensures -1 <= t <= 1
    ensures t == 1 <==> theta > 0.0
    ensures t == -1 <==> theta < 0.0
    ensures t == 0 <==> theta == 0.0
  {
    if theta != 0.0 then (if theta > 0.0 then 1 else -1) else 0
  }

  /** The turn angle of a tick. */
  function Theta(keys: Keys, rotationSpeed: real): real {
    (keys.TurnInput() as real) * rotationSpeed
  }

  /** A turn is to the left exactly when left is held without right and the rate is positive. */
  lemma TurnDirection(keys: Keys, rotationSpeed: real)
    requires rotationSpeed > 0.0
    ensures Sign(Theta(keys, rotationSpeed)) == keys.TurnInput()
  {}

  /** The tilt eases a tenth of the way towards -turning. */
  function NextTilt(tilt: real, turning: int): (r: real)
    ensures r == 0.9 * tilt + 0.1 * -(turning as real)
    ensures -1.0 <= tilt <= 1.0 && -1 <= turning <= 1 ==> -1.0 <= r <= 1.0
  {
    if turning != 0 then tilt + 0.1 * ((turning as real * -1.0) - tilt)
    else tilt + 0.1 * (0.0 - tilt)
  }

  /** The ground's reaction, 0.5 along the surface normal; nothing while airborne. */
  function SurfaceForce(surfaceNormal: Option<Vec3>): Vec3
  {
    match surfaceNormal
    case None => Zero
    case Some(n) => Scale(n, Gravity * -1.0)
  }

  /** The thrust factor along the nose: the key input times 1.5, four times that while boosting. */
  function ThrustFactor(keys: Keys, boost: bool): real {
    (keys.ThrustInput() as real) * (MovementForce * (if boost then BoostForceMultiplier else 1.0))
  }

  /**
   * Lines 106-113 and 145-151: the rover's nose, which `glm.vec3.scale` rescales in
   * place by the thrust while a key is held on the ground.
   */
  function Nose(keys: Keys, surfaceRotation: Quat, rotation: Quat, surfaceNormal: Option<Vec3>, boost: bool): Vec3 {
    var nose := TransformQuat(Forward, QuatMul(surfaceRotation, rotation));
    if keys.Steering() && surfaceNormal.Some? then Scale(nose, ThrustFactor(keys, boost)) else nose
  }

  /** Lines 94-153: gravity, the ground's reaction on the ground, and the thrust `forward` while a key is held there. */
  function DriveForce(keys: Keys, surfaceNormal: Option<Vec3>, forward: Vec3): Vec3 {
    var base := Vec3(0.0, Gravity, 0.0);
    if surfaceNormal.None? then base
    else if !keys.Steering() then Add(base, SurfaceForce(surfaceNormal))
    else Add(Add(base, SurfaceForce(surfaceNormal)), forward)
  }

  /** Lines 126-139: the turn angle of a tick, from the boost flag and the velocity before the tick's forces. */
  function TurnAngle(math: MathLib, keys: Keys, boost: bool, velocity: Vec3): real {
    Theta(keys, RotationSpeedFor(math, boost, velocity))
  }

  /** Lines 124-140: the rover turns about y only while a key is held. */
  function Turned(math: MathLib, keys: Keys, boost: bool, velocity: Vec3, rotation: Quat): Quat {
    if keys.Steering() then math.rotateY(rotation, TurnAngle(math, keys, boost, velocity)) else rotation
  }

  /** Lines 92 and 141: `turning` is reset, then set to the sign of theta while a key is held. */
  function TurningFor(math: MathLib, keys: Keys, boost: bool, velocity: Vec3): int {
    if keys.Steering() then Sign(TurnAngle(math, keys, boost, velocity)) else 0
  }

  /** Without a key the rover neither turns nor thrusts, and the force is gravity plus the ground's reaction. */
  lemma IdleDrive(math: MathLib, keys: Keys, surfaceRotation: Quat, rotation: Quat, surfaceNormal: Option<Vec3>,
                  boost: bool, velocity: Vec3)
    requires !keys.Steering()
    ensures Turned(math, keys, boost, velocity, rotation) == rotation && TurningFor(math, keys, boost, velocity) == 0
    ensures DriveForce(keys, surfaceNormal, Nose(keys, surfaceRotation, rotation, surfaceNormal, boost))
      == Add(Vec3(0.0, Gravity, 0.0), SurfaceForce(surfaceNormal))
  {
    if surfaceNormal.None? {
      assert Add(Vec3(0.0, Gravity, 0.0), Zero) == Vec3(0.0, Gravity, 0.0);
    }
  }

  /** With a key held and a positive turn rate, `turning` is the left-minus-right input. */
  lemma SteeringTurns(math: MathLib, keys: Keys, boost: bool, velocity: Vec3)
    requires keys.Steering() && RotationSpeedFor(math, boost, velocity) > 0.0
    ensures TurningFor(math, keys, boost, velocity) == keys.TurnInput()
  {
    TurnDirection(keys, RotationSpeedFor(math, boost, velocity));
  }

  /** Without a key, or in the air, there is no thrust. */
  lemma ThrustNeedsKey(keys: Keys, boost: bool)
    ensures !keys.Steering() ==> ThrustFactor(keys, boost) == 0.0
    ensures -MovementForce * BoostForceMultiplier <= ThrustFactor(keys, boost) <= MovementForce * BoostForceMultiplier
  {}

  /**
   * The friction factor: none in the air; on the ground 0.05 times one minus the
   * cosine between the nose and the velocity (normalised; a zero vector stays zero).
   */
  function Friction(math: MathLib, surfaceNormal: Option<Vec3>, forward: Vec3, velocity: Vec3): real {
    if surfaceNormal.None? then 0.0
    else (1.0 - Dot(math.Normalize(forward), math.Normalize(velocity))) * GroundFriction
  }

  /** Friction is 0 in the air and lies in [0, 0.1] on the ground. */
  lemma FrictionBounds(math: MathLib, surfaceNormal: Option<Vec3>, forward: Vec3, velocity: Vec3)
    requires math.Valid()
    ensures surfaceNormal.None? ==> Friction(math, surfaceNormal, forward, velocity) == 0.0
    ensures 0.0 <= Friction(math, surfaceNormal, forward, velocity) <= 2.0 * GroundFriction
  {
    math.NormalizeLengthSq(forward);
    math.NormalizeLengthSq(velocity);
    UnitDot(math.Normalize(forward), math.Normalize(velocity));
  }

  /** Vectors of length at most 1 have a dot product in [-1, 1]. */
  lemma UnitDot(a: Vec3, b: Vec3)
    requires LengthSq(a) <= 1.0 && LengthSq(b) <= 1.0
    ensures -1.0 <= Dot(a, b) <= 1.0
  {
    DotBound(a, b);
  }

  /** The speed cap of this tick. */
  function MaxSpeed(boost: bool): real {
    if boost then MaxBoostVelocity else MaxVelocity
  }

  /** The speed cap: a faster velocity is rescaled to length `maxVelocity`. */
  function CapVelocity(math: MathLib, velocity: Vec3, maxVelocity: real): Vec3 {
    if math.Length(velocity) > maxVelocity then Scale(math.Normalize(velocity), maxVelocity) else velocity
  }

  /** After the cap the speed is at most the limit, and never more than before. */
  lemma CapBound(math: MathLib, velocity: Vec3, maxVelocity: real)
    requires math.Valid() && 0.0 <= maxVelocity
    ensures LengthSq(CapVelocity(math, velocity, maxVelocity)) <= maxVelocity * maxVelocity
    ensures LengthSq(CapVelocity(math, velocity, maxVelocity)) <= LengthSq(velocity)
    ensures LengthSq(velocity) <= maxVelocity * maxVelocity ==> CapVelocity(math, velocity, maxVelocity) == velocity
  {
    LengthSqNonNegative(velocity);
    math.SqrtCompare(LengthSq(velocity), maxVelocity);
    if math.Length(velocity) > maxVelocity {
      math.NormalizeUnit(velocity);
      LengthSqScale(math.Normalize(velocity), maxVelocity);
    }
  }

  /** The anti-jiggle rule: an idle rover slower than MIN_VELOCITY stops dead. */
  function IdleStop(math: MathLib, idle: bool, velocity: Vec3): (r: Vec3)
    ensures r == Zero || r == velocity
    ensures !idle ==> r == velocity
  {
    if idle && math.Length(velocity) < MinVelocity then Zero else velocity
  }

  /** The rover stops exactly when it is idle with |v|² < MIN_VELOCITY², or was already at rest. */
  lemma IdleStopExact(math: MathLib, idle: bool, velocity: Vec3)
    requires math.Valid()
    ensures IdleStop(math, idle, velocity) == Zero <==>
      (idle && LengthSq(velocity) < MinVelocity * MinVelocity) || velocity == Zero
  {
    LengthSqNonNegative(velocity);
    math.SqrtCompare(LengthSq(velocity), MinVelocity);
  }

  /** Lines 164-198: the velocity once forces, friction, the cap and the idle rule have acted. */
  function NewVelocity(math: MathLib, velocity: Vec3, force: Vec3, forward: Vec3,
                       surfaceNormal: Option<Vec3>, boost: bool, idle: bool, mass: real): Vec3
    requires mass != 0.0
  {
    var accelerated := Add(velocity, Scale(force, 1.0 / mass));
    var slowed := Scale(accelerated, 1.0 - Friction(math, surfaceNormal, forward, accelerated));
    IdleStop(math, idle, CapVelocity(math, slowed, MaxSpeed(boost)))
  }

  /**
   * Lines 94-198: the velocity of a tick from the rover's state before it, with
   * the boost flag of line 91.
   */
  function DriveVelocity(math: MathLib, keys: Keys, velocity: Vec3, rotation: Quat, surfaceRotation: Quat,
                         surfaceNormal: Option<Vec3>, boost: bool, mass: real): Vec3
    requires mass != 0.0
  {
    var forward := Nose(keys, surfaceRotation, rotation, surfaceNormal, boost);
    NewVelocity(math, velocity, DriveForce(keys, surfaceNormal, forward), forward, surfaceNormal, boost, !keys.Steering(), mass)
  }

  /** Whatever the forces, the new velocity respects this tick's cap. */
  lemma NewVelocityBound(math: MathLib, velocity: Vec3, force: Vec3, forward: Vec3,
                         surfaceNormal: Option<Vec3>, boost: bool, idle: bool, mass: real)
    requires math.Valid() && mass != 0.0
    ensures SpeedWithin(NewVelocity(math, velocity, force, forward, surfaceNormal, boost, idle, mass), MaxSpeed(boost))
  {
    var accelerated := Add(velocity, Scale(force, 1.0 / mass));
    CapIdleBound(math, Scale(accelerated, 1.0 - Friction(math, surfaceNormal, forward, accelerated)), MaxSpeed(boost), idle);
  }

  lemma CapIdleBound(math: MathLib, velocity: Vec3, maxVelocity: real, idle: bool)
    requires math.Valid() && 0.0 <= maxVelocity
    ensures LengthSq(IdleStop(math, idle, CapVelocity(math, velocity, maxVelocity))) <= maxVelocity * maxVelocity
  {
    CapBound(math, velocity, maxVelocity);
  }

  /** The rover's position and velocity while obstacles push it. */
  datatype Motion = Motion(position: Vec3, velocity: Vec3)

  /**
   * Lines 209-223: inside an obstacle the rover is put back on the sphere of radius
   * size around its center, and moves away from it at a quarter of its speed.
   */
  function Bounce(math: MathLib, o: Ground.Obstacle, m: Motion): (r: Motion)
    ensures !(math.Distance(o.position, m.position) < o.size.x) ==> r == m
  {
    if math.Distance(o.position, m.position) < o.size.x then
      var impulse := Scale(math.Normalize(Sub(o.position, m.position)), o.size.x * -1.0);
      Motion(Add(o.position, impulse), Scale(math.Normalize(impulse), math.Length(m.velocity) * ImpactElasticity))
    else m
  }

  /** A bounce leaves at most a quarter of the speed (|v'|² <= 0.0625·|v|²); no bounce changes nothing. */
  lemma BounceSlows(math: MathLib, o: Ground.Obstacle, m: Motion)
    requires math.Valid()
    ensures math.Distance(o.position, m.position) < o.size.x ==>
      LengthSq(Bounce(math, o, m).velocity) <= 0.0625 * LengthSq(m.velocity)
    ensures LengthSq(Bounce(math, o, m).velocity) <= LengthSq(m.velocity)
  {
    LengthSqNonNegative(m.velocity);
    if math.Distance(o.position, m.position) < o.size.x {
      ReboundBound(math, Scale(math.Normalize(Sub(o.position, m.position)), o.size.x * -1.0), m.velocity);
    }
  }

  /** Rescaling a normalised vector to a quarter of |v| gives at most a quarter of the speed. */
  lemma ReboundBound(math: MathLib, impulse: Vec3, v: Vec3)
    requires math.Valid()
    ensures LengthSq(Scale(math.Normalize(impulse), math.Length(v) * ImpactElasticity)) <= 0.0625 * LengthSq(v)
  {
    ReboundFactsHold(math, impulse, v);
    ReboundFactsBound(math, impulse, v);
  }

  ghost predicate ReboundFacts(math: MathLib, impulse: Vec3, v: Vec3) {
    && (LengthSq(math.Normalize(impulse)) == 0.0 || LengthSq(math.Normalize(impulse)) == 1.0)
    && 0.0 <= math.Length(v) && math.Length(v) * math.Length(v) == LengthSq(v)
  }

  lemma ReboundFactsHold(math: MathLib, impulse: Vec3, v: Vec3)
    requires math.Valid()
    ensures ReboundFacts(math, impulse, v)
  {
    math.NormalizeLengthSq(impulse);
    LengthFacts(math, v);
  }

  lemma LengthFacts(math: MathLib, v: Vec3)
    requires math.Valid()
    ensures 0.0 <= math.Length(v) && math.Length(v) * math.Length(v) == LengthSq(v)
  {
    LengthSqNonNegative(v);
    math.SqrtFacts(LengthSq(v));
  }

  lemma ReboundFactsBound(math: MathLib, impulse: Vec3, v: Vec3)
    requires ReboundFacts(math, impulse, v)
    ensures LengthSq(Scale(math.Normalize(impulse), math.Length(v) * ImpactElasticity)) <= 0.0625 * LengthSq(v)
  {
    QuarterScale(math.Normalize(impulse), math.Length(v), LengthSq(v));
  }

  lemma QuarterScale(u: Vec3, q: real, l: real)
    requires LengthSq(u) == 0.0 || LengthSq(u) == 1.0
    requires 0.0 <= q && q * q == l
    ensures LengthSq(Scale(u, q * ImpactElasticity)) <= 0.0625 * l
  {
    LengthSqScale(u, q * ImpactElasticity);
    assert (q * ImpactElasticity) * (q * ImpactElasticity) == 0.0625 * l;
  }

  /** A rover pushed out of an obstacle (but not from its exact center) ends up exactly `size` from the center. */
  lemma BounceOnSurface(math: MathLib, o: Ground.Obstacle, m: Motion)
    requires math.Valid() && 0.0 < math.Distance(o.position, m.position) < o.size.x
    ensures DistSq(Bounce(math, o, m).position, o.position) == o.size.x * o.size.x
  {
    var d := Sub(o.position, m.position);
    math.DistanceCompare(o.position, m.position, 0.0);
    math.NormalizeUnit(d);
    var impulse := Scale(math.Normalize(d), o.size.x * -1.0);
    assert Sub(Add(o.position, impulse), o.position) == impulse;
    LengthSqScale(math.Normalize(d), o.size.x * -1.0);
  }

  /** The obstacles of a chunk, applied in list order. */
  function Bounces(math: MathLib, os: seq<Ground.Obstacle>, m: Motion): Motion {
    if os == [] then m else Bounce(math, os[|os| - 1], Bounces(math, os[..|os| - 1], m))
  }

  /** However many obstacles push the rover, it never speeds up. */
  lemma {:induction false} BouncesSlow(math: MathLib, os: seq<Ground.Obstacle>, m: Motion)
    requires math.Valid()
    ensures LengthSq(Bounces(math, os, m).velocity) <= LengthSq(m.velocity)
  {
    if os != [] {
      var before := Bounces(math, os[..|os| - 1], m);
      BouncesSlow(math, os[..|os| - 1], m);
      BounceSlows(math, os[|os| - 1], before);
    }
  }

  /** Lines 228-229: a rover at or below the terrain is lifted onto it. */
  function Rest(p: Vec3, height: real): (r: Vec3)
    ensures r.x == p.x && r.z == p.z && r.y >= height
    ensures p.y > height ==> r == p
  {
    if p.y <= height then Vec3(p.x, height, p.z) else p
  }

  /** How a tick ended: the terrain query found no chunk (the source then throws), or it completed. */
  datatype TickOutcome = NoTerrain | Completed(hn: Ground.HeightNormal)

  /**
   * What every tick keeps of the rover: the fuel lies in [0, 100], turning in
   * {-1, 0, 1}, the tilt in [-1, 1], the speed within the boost cap, and the
   * rover only stands on upward unit normals.
   */
  ghost predicate RoverInvariant(rover: RoverComponent)
    reads rover
  {
    && rover.mass != 0.0
    && 0.0 <= rover.boostRemaining <= FullBoost
    && -1 <= rover.turning <= 1
    && -1.0 <= rover.tilt <= 1.0
    && SpeedWithin(rover.velocity, MaxBoostVelocity)
    && (rover.surfaceNormal.Some? ==> UpwardUnit(rover.surfaceNormal.value))
  }

  /** |v| <= cap, compared in squared form. */
  ghost predicate SpeedWithin(v: Vec3, cap: real) {
    LengthSq(v) <= cap * cap
  }

  /** Either cap bounds the speed by MAX_BOOST_VELOCITY. */
  lemma WithinBoostCap(v: Vec3, boost: bool)
    requires SpeedWithin(v, MaxSpeed(boost))
    ensures SpeedWithin(v, MaxBoostVelocity)
  {}

  ghost predicate UpwardUnit(n: Vec3) {
    n.y > 0.0 && LengthSq(n) == 1.0
  }

  /** The rover of `buildRover`, at rest in the air with a full tank, satisfies the invariant. */
  lemma InitiallyValid(rover: RoverComponent)
    requires rover.mass != 0.0 && rover.velocity == Zero && rover.surfaceNormal == None
    requires rover.turning == 0 && rover.tilt == 0.0 && rover.boostRemaining == FullBoost
    ensures RoverInvariant(rover)
  {
  }

  class RoverSystem {
    const rover: RoverComponent
    const ground: Ground.GroundComponent

    ghost predicate Valid()
      reads this, rover, ground, ground.chunks
    {
      ground.Valid() && RoverInvariant(rover)
    }

    constructor(rover: RoverComponent, ground: Ground.GroundComponent)
      ensures this.rover == rover && this.ground == ground
    {
      this.rover := rover;
      this.ground := ground;
    }

    /** `simulate`: one tick of the rover for the keys currently held. */
    method Simulate(keys: Keys) returns (outcome: TickOutcome)
      requires Valid()
      modifies rover, ground, ground.rng, set c | c in ground.chunks
      ensures Valid()
      ensures rover.boostRemaining == BoostStep(old(rover.boostRemaining), keys.space)
      ensures rover.boost == BoostOn(keys.space, rover.boostRemaining)
      ensures rover.turning == TurningFor(ground.math, keys, rover.boost, old(rover.velocity))
      ensures rover.turning != 0 ==> keys.Steering() && keys.TurnInput() != 0
      ensures rover.rotation == Turned(ground.math, keys, rover.boost, old(rover.velocity), old(rover.rotation))
      ensures rover.tilt == NextTilt(old(rover.tilt), rover.turning)
      ensures SpeedWithin(rover.velocity, MaxSpeed(rover.boost))
      ensures var v := DriveVelocity(ground.math, keys, old(rover.velocity), old(rover.rotation),
                                     old(rover.surfaceRotation), old(rover.surfaceNormal), rover.boost, rover.mass);
        var moved := Motion(Add(old(rover.position), v), v);
        && (outcome.NoTerrain? ==>
              && Motion(rover.position, rover.velocity) == moved
              && ground.GetActiveChunk(rover.position.x, rover.position.z).None?)
        && (outcome.Completed? ==>
              var m := Bounces(ground.math, outcome.hn.chunk.obstacles, moved);
              && outcome.hn.height == ground.TerrainAt(moved.position.x, moved.position.z).height
              && outcome.hn.normal == ground.TerrainAt(moved.position.x, moved.position.z).normal
              && rover.velocity == m.velocity && rover.position == Rest(m.position, outcome.hn.height)
              && rover.surfaceNormal == (if m.position.y <= outcome.hn.height then Some(outcome.hn.normal) else None)
              && rover.surfaceRotation == if m.position.y <= outcome.hn.height
                   then ground.math.slerp(old(rover.surfaceRotation),
                                          ground.math.setAxes(outcome.hn.binormal, outcome.hn.tangent, outcome.hn.normal), 0.25)
                   else old(rover.surfaceRotation))
      ensures outcome.NoTerrain? ==>
        rover.surfaceNormal == old(rover.surfaceNormal) && rover.surfaceRotation == old(rover.surfaceRotation)
      ensures outcome.Completed? ==>
        || (rover.surfaceNormal == Some(outcome.hn.normal) && rover.position.y == outcome.hn.height)
        || (rover.surfaceNormal == None && rover.position.y > outcome.hn.height)
      ensures var k := Ground.Kept(ground.math, old(ground.chunks), Vec3(old(rover.position).x, 0.0, old(rover.position).z), MaxVisibility);
        var points := Ground.ProbePoints(old(rover.position).x, old(rover.position).z, MinVisibility);
        && k <= ground.chunks && |ground.chunks| <= |k| + 8
        && (forall i :: |k| <= i < |ground.chunks| ==> fresh(ground.chunks[i]))
        && Ground.ProvidesAll(ground.chunks, points)
        && Ground.SnappedFrom(ground.chunks, |k|, points)
        && Ground.NeededFrom(ground.chunks, |k|, points)
        && (Ground.ProvidesAll(k, points) ==> ground.chunks == k && ground.rng.cursor == old(ground.rng.cursor))
    {
      ground.EnsureChunks(rover.position.x, rover.position.z, MinVisibility, MaxVisibility);
      outcome := Advance(keys);
    }

    /** Lines 88-249, once the chunks around the rover are streamed in. */
    method Advance(keys: Keys) returns (outcome: TickOutcome)
      requires Valid()
      modifies rover, set c | c in ground.chunks
      ensures Valid()
      ensures rover.boostRemaining == BoostStep(old(rover.boostRemaining), keys.space)
      ensures rover.boost == BoostOn(keys.space, rover.boostRemaining)
      ensures rover.turning == TurningFor(ground.math, keys, rover.boost, old(rover.velocity))
      ensures rover.turning != 0 ==> keys.Steering() && keys.TurnInput() != 0
      ensures rover.rotation == Turned(ground.math, keys, rover.boost, old(rover.velocity), old(rover.rotation))
      ensures rover.tilt == NextTilt(old(rover.tilt), rover.turning)
      ensures SpeedWithin(rover.velocity, MaxSpeed(rover.boost))
      ensures var v := DriveVelocity(ground.math, keys, old(rover.velocity), old(rover.rotation),
                                     old(rover.surfaceRotation), old(rover.surfaceNormal), rover.boost, rover.mass);
        var moved := Motion(Add(old(rover.position), v), v);
        && (outcome.NoTerrain? ==>
              && Motion(rover.position, rover.velocity) == moved
              && ground.GetActiveChunk(rover.position.x, rover.position.z).None?)
        && (outcome.Completed? ==>
              var m := Bounces(ground.math, outcome.hn.chunk.obstacles, moved);
              && outcome.hn.height == ground.TerrainAt(moved.position.x, moved.position.z).height
              && outcome.hn.normal == ground.TerrainAt(moved.position.x, moved.position.z).normal
              && rover.velocity == m.velocity && rover.position == Rest(m.position, outcome.hn.height)
              && rover.surfaceNormal == (if m.position.y <= outcome.hn.height then Some(outcome.hn.normal) else None)
              && rover.surfaceRotation == if m.position.y <= outcome.hn.height
                   then ground.math.slerp(old(rover.surfaceRotation),
                                          ground.math.setAxes(outcome.hn.binormal, outcome.hn.tangent, outcome.hn.normal), 0.25)
                   else old(rover.surfaceRotation))
      ensures outcome.NoTerrain? ==>
        rover.surfaceNormal == old(rover.surfaceNormal) && rover.surfaceRotation == old(rover.surfaceRotation)
      ensures outcome.Completed? ==>
        || (rover.surfaceNormal == Some(outcome.hn.normal) && rover.position.y == outcome.hn.height)
        || (rover.surfaceNormal == None && rover.position.y > outcome.hn.height)
    {
      Drive(keys);
      var hn := Sense();
      if hn.None? {
        return NoTerrain;
      }
      Collide(hn.value);
      outcome := Completed(hn.value);
    }

    /** Lines 88-200: fuel, steering, forces and the move by the new velocity. */
    method Drive(keys: Keys)
      requires RoverInvariant(rover) && ground.math.Valid()
      modifies rover
      ensures RoverInvariant(rover)
      ensures rover.boostRemaining == BoostStep(old(rover.boostRemaining), keys.space)
      ensures rover.boost == BoostOn(keys.space, rover.boostRemaining)
      ensures rover.turning == TurningFor(ground.math, keys, rover.boost, old(rover.velocity))
      ensures rover.turning != 0 ==> keys.Steering() && keys.TurnInput() != 0
      ensures rover.rotation == Turned(ground.math, keys, rover.boost, old(rover.velocity), old(rover.rotation))
      ensures rover.tilt == NextTilt(old(rover.tilt), rover.turning)
      ensures rover.velocity == DriveVelocity(ground.math, keys, old(rover.velocity), old(rover.rotation),
                                              old(rover.surfaceRotation), old(rover.surfaceNormal), rover.boost, rover.mass)
      ensures SpeedWithin(rover.velocity, MaxSpeed(rover.boost))
      ensures rover.position == Add(old(rover.position), rover.velocity)
      ensures rover.surfaceNormal == old(rover.surfaceNormal) && rover.surfaceRotation == old(rover.surfaceRotation)
    {
      UpdateBoost(keys);
      var force, forward, idle := Steer(keys);
      Propel(force, forward, idle);
    }

    /** Lines 162-200 under a valid sqrt: the new velocity keeps within this tick's cap. */
    method Propel(force: Vec3, forward: Vec3, idle: bool)
      requires RoverInvariant(rover) && ground.math.Valid()
      modifies rover
      ensures RoverInvariant(rover) && SpeedWithin(rover.velocity, MaxSpeed(rover.boost))
      ensures rover.velocity == NewVelocity(ground.math, old(rover.velocity), force, forward,
                                            rover.surfaceNormal, rover.boost, idle, rover.mass)
      ensures rover.position == Add(old(rover.position), rover.velocity)
      ensures rover.rotation == old(rover.rotation) && rover.surfaceRotation == old(rover.surfaceRotation)
      ensures rover.surfaceNormal == old(rover.surfaceNormal) && rover.tilt == old(rover.tilt)
      ensures rover.turning == old(rover.turning)
      ensures rover.boost == old(rover.boost) && rover.boostRemaining == old(rover.boostRemaining)
    {
      ghost var before := rover.velocity;
      Accelerate(force, forward, idle);
      NewVelocityBound(ground.math, before, force, forward, rover.surfaceNormal, rover.boost, idle, rover.mass);
      WithinBoostCap(rover.velocity, rover.boost);
    }

    /** Lines 203-206: the terrain under the rover, which is an upward unit normal when found. */
    method Sense() returns (hn: Option<Ground.HeightNormal>)
      requires ground.Valid()
      modifies set c | c in ground.chunks
      ensures ground.Valid() && unchanged(set c | c in ground.chunks)
      ensures hn.None? ==> ground.GetActiveChunk(rover.position.x, rover.position.z).None?
      ensures hn.Some? ==> hn.value.chunk in ground.chunks && UpwardUnit(hn.value.normal)
      ensures hn.Some? ==> var t := ground.TerrainAt(rover.position.x, rover.position.z);
        hn.value.height == t.height && hn.value.normal == t.normal
    {
      hn := ground.GetHeightAndNormalAt(rover.position.x, rover.position.z);
      if hn.Some? {
        Terrain.ShadeNormalUp(ground.math, ground.Heights(), rover.position.x, rover.position.z);
      }
    }

    /** Lines 208-249: obstacles push the rover out, then the terrain holds it up. */
    method Collide(hn: Ground.HeightNormal)
      requires RoverInvariant(rover) && ground.math.Valid() && UpwardUnit(hn.normal)
      requires SpeedWithin(rover.velocity, MaxSpeed(rover.boost))
      modifies rover
      ensures RoverInvariant(rover)
      ensures SpeedWithin(rover.velocity, MaxSpeed(rover.boost))
      ensures var m := Bounces(ground.math, hn.chunk.obstacles, old(Motion(rover.position, rover.velocity)));
        && rover.velocity == m.velocity && rover.position == Rest(m.position, hn.height)
        && rover.surfaceNormal == (if m.position.y <= hn.height then Some(hn.normal) else None)
        && rover.surfaceRotation == if m.position.y <= hn.height
             then ground.math.slerp(old(rover.surfaceRotation), ground.math.setAxes(hn.binormal, hn.tangent, hn.normal), 0.25)
             else old(rover.surfaceRotation)
      ensures || (rover.surfaceNormal == Some(hn.normal) && rover.position.y == hn.height)
              || (rover.surfaceNormal == None && rover.position.y > hn.height)
      ensures rover.rotation == old(rover.rotation)
      ensures rover.boost == old(rover.boost) && rover.boostRemaining == old(rover.boostRemaining)
      ensures rover.turning == old(rover.turning) && rover.tilt == old(rover.tilt)
    {
      ResolveObstacles(hn.chunk.obstacles);
      Land(hn);
      WithinBoostCap(rover.velocity, rover.boost);
    }

    /** Lines 88-92: fuel, the boost flag and the reset of `turning`. */
    method UpdateBoost(keys: Keys)
      requires RoverInvariant(rover)
      modifies rover
      ensures RoverInvariant(rover)
      ensures rover.boostRemaining == BoostStep(old(rover.boostRemaining), keys.space)
      ensures rover.boost == BoostOn(keys.space, rover.boostRemaining)
      ensures rover.turning == 0
      ensures rover.position == old(rover.position) && rover.velocity == old(rover.velocity)
      ensures rover.rotation == old(rover.rotation) && rover.surfaceRotation == old(rover.surfaceRotation)
      ensures rover.surfaceNormal == old(rover.surfaceNormal) && rover.tilt == old(rover.tilt)
    {
      rover.boostRemaining := rover.boostRemaining + if keys.space then -BoostDrain else BoostRecharge;
      rover.boostRemaining := Clamp(rover.boostRemaining);
      rover.boost := BoostOn(keys.space, rover.boostRemaining);
      rover.turning := 0;
    }

    /**
     * Lines 94-160: the force of this tick, the nose direction (scaled by the thrust
     * when it is applied), turning and tilt.
     */
    method Steer(keys: Keys) returns (force: Vec3, forward: Vec3, idle: bool)
      requires RoverInvariant(rover) && rover.turning == 0
      modifies rover
      ensures RoverInvariant(rover)
      ensures idle <==> !keys.Steering()
      ensures forward == Nose(keys, old(rover.surfaceRotation), old(rover.rotation), rover.surfaceNormal, rover.boost)
      ensures force == DriveForce(keys, rover.surfaceNormal, forward)
      ensures rover.turning == TurningFor(ground.math, keys, rover.boost, rover.velocity)
      ensures rover.rotation == Turned(ground.math, keys, rover.boost, rover.velocity, old(rover.rotation))
      ensures -1 <= rover.turning <= 1 && (rover.turning != 0 ==> keys.Steering() && keys.TurnInput() != 0)
      ensures rover.tilt == NextTilt(old(rover.tilt), rover.turning) && -1.0 <= rover.tilt <= 1.0
      ensures rover.position == old(rover.position) && rover.velocity == old(rover.velocity)
      ensures rover.surfaceRotation == old(rover.surfaceRotation) && rover.surfaceNormal == old(rover.surfaceNormal)
      ensures rover.boost == old(rover.boost) && rover.boostRemaining == old(rover.boostRemaining)
    {
      force := Vec3(0.0, Gravity, 0.0);
      idle := true;
      if rover.surfaceNormal.Some? {
        force := Add(force, SurfaceForce(rover.surfaceNormal));
      }
      forward := TransformQuat(Forward, QuatMul(rover.surfaceRotation, rover.rotation));
      if keys.Steering() {
        idle := false;
        var theta := Theta(keys, RotationSpeedFor(ground.math, rover.boost, rover.velocity));
        rover.rotation := ground.math.rotateY(rover.rotation, theta);
        rover.turning := Sign(theta);
        if theta != 0.0 {
          assert keys.TurnInput() != 0;
        }
        if rover.surfaceNormal.Some? {
          forward := Scale(forward, ThrustFactor(keys, rover.boost));
          force := Add(force, forward);
        }
      }
      rover.tilt := NextTilt(rover.tilt, rover.turning);
    }

    /** Lines 162-200: the new velocity and the move by it. */
    method Accelerate(force: Vec3, forward: Vec3, idle: bool)
      requires rover.mass != 0.0
      modifies rover
      ensures rover.velocity == NewVelocity(ground.math, old(rover.velocity), force, forward,
                                            rover.surfaceNormal, rover.boost, idle, rover.mass)
      ensures rover.position == Add(old(rover.position), rover.velocity)
      ensures rover.rotation == old(rover.rotation) && rover.surfaceRotation == old(rover.surfaceRotation)
      ensures rover.surfaceNormal == old(rover.surfaceNormal) && rover.tilt == old(rover.tilt)
      ensures rover.turning == old(rover.turning)
      ensures rover.boost == old(rover.boost) && rover.boostRemaining == old(rover.boostRemaining)
    {
      var math := ground.math;
      var velocity := Add(rover.velocity, Scale(force, 1.0 / rover.mass));
      var friction := Friction(math, rover.surfaceNormal, forward, velocity);
      velocity := Scale(velocity, 1.0 - friction);
      var maxVelocity := MaxSpeed(rover.boost);
      if math.Length(velocity) > maxVelocity {
        velocity := Scale(math.Normalize(velocity), maxVelocity);
      }
      if idle && math.Length(velocity) < MinVelocity {
        velocity := Zero;
      }
      rover.velocity := velocity;
      rover.position := Add(rover.position, velocity);
    }

    /** Lines 208-225: each obstacle of the chunk, in order, may push the rover out. */
    method ResolveObstacles(obstacles: seq<Ground.Obstacle>)
      requires ground.math.Valid()
      modifies rover
      ensures Motion(rover.position, rover.velocity) == Bounces(ground.math, obstacles, old(Motion(rover.position, rover.velocity)))
      ensures SpeedWithin(old(rover.velocity), MaxSpeed(rover.boost)) ==> SpeedWithin(rover.velocity, MaxSpeed(rover.boost))
      ensures rover.rotation == old(rover.rotation) && rover.surfaceRotation == old(rover.surfaceRotation)
      ensures rover.surfaceNormal == old(rover.surfaceNormal) && rover.tilt == old(rover.tilt)
      ensures rover.turning == old(rover.turning)
      ensures rover.boost == old(rover.boost) && rover.boostRemaining == old(rover.boostRemaining)
    {
      ghost var start := Motion(rover.position, rover.velocity);
      var i := 0;
      while i < |obstacles|
        invariant 0 <= i <= |obstacles|
        invariant Motion(rover.position, rover.velocity) == Bounces(ground.math, obstacles[..i], start)
        invariant rover.rotation == old(rover.rotation) && rover.surfaceRotation == old(rover.surfaceRotation)
        invariant rover.surfaceNormal == old(rover.surfaceNormal) && rover.tilt == old(rover.tilt)
        invariant rover.turning == old(rover.turning)
        invariant rover.boost == old(rover.boost) && rover.boostRemaining == old(rover.boostRemaining)
      {
        Push(obstacles[i]);
        assert obstacles[..i + 1][..i] == obstacles[..i];
        i := i + 1;
      }
      assert obstacles[..|obstacles|] == obstacles;
      BouncesSlow(ground.math, obstacles, start);
    }

    /** Lines 209-223: one obstacle's push. */
    method Push(obstacle: Ground.Obstacle)
      modifies rover
      ensures Motion(rover.position, rover.velocity) == Bounce(ground.math, obstacle, old(Motion(rover.position, rover.velocity)))
      ensures rover.rotation == old(rover.rotation) && rover.surfaceRotation == old(rover.surfaceRotation)
      ensures rover.surfaceNormal == old(rover.surfaceNormal) && rover.tilt == old(rover.tilt)
      ensures rover.turning == old(rover.turning)
      ensures rover.boost == old(rover.boost) && rover.boostRemaining == old(rover.boostRemaining)
    {
      var math := ground.math;
      if math.Distance(obstacle.position, rover.position) < obstacle.size.x {
        var impulse := Sub(obstacle.position, rover.position);
        impulse := math.Normalize(impulse);
        impulse := Scale(impulse, obstacle.size.x * -1.0);
        rover.position := Add(obstacle.position, impulse);
        impulse := math.Normalize(impulse);
        rover.velocity := Scale(impulse, math.Length(rover.velocity) * ImpactElasticity);
      }
    }

    /** Lines 227-249: no sinking into the terrain; on contact the rover takes the surface's orientation. */
    method Land(hn: Ground.HeightNormal)
      modifies rover
      ensures old(rover.position.y) <= hn.height ==>
        && rover.position == Vec3(old(rover.position.x), hn.height, old(rover.position.z))
        && rover.surfaceRotation == ground.math.slerp(old(rover.surfaceRotation), ground.math.setAxes(hn.binormal, hn.tangent, hn.normal), 0.25)
        && rover.surfaceNormal == Some(hn.normal)
      ensures old(rover.position.y) > hn.height ==>
        rover.position == old(rover.position) && rover.surfaceRotation == old(rover.surfaceRotation) && rover.surfaceNormal == None
      ensures rover.velocity == old(rover.velocity) && rover.rotation == old(rover.rotation)
      ensures rover.tilt == old(rover.tilt) && rover.turning == old(rover.turning)
      ensures rover.boost == old(rover.boost) && rover.boostRemaining == old(rover.boostRemaining)
    {
      if rover.position.y <= hn.height {
        rover.position := Vec3(rover.position.x, hn.height, rover.position.z);
        var newRotation := ground.math.setAxes(hn.binormal, hn.tangent, hn.normal);
        rover.surfaceRotation := ground.math.slerp(rover.surfaceRotation, newRotation, 0.25);
        rover.surfaceNormal := Some(hn.normal);
      } else {
        rover.surfaceNormal := None;
      }
    }
  }
}
