/**
 * `SpecimenComponent`: a creature of one of two kinds, with the per-kind table
 * of value, size, colour and speeds, and the movement state `SpecimenSystem`
 * updates in place.
 */
module Specimens {
  import opened Wrappers
  import opened Vectors

  /** IDLE_SPEED, SMALL_PANIC_SPEED, LARGE_PANIC_SPEED. */
  const IdleSpeed: real := 0.03
  const SmallPanicSpeed: real := 0.10
  const LargePanicSpeed: real := 0.14

  /** SMALL_TYPE (0) and LARGE_TYPE (1). */
  datatype Kind = Small | Large

  /** An RGBA colour. */
  datatype Color = Color(r: real, g: real, b: real, a: real)

  /** One row of the constructor's table. */
  datatype Traits = Traits(value: int, size: real, color: Color, idleSpeed: real, panicSpeed: real)

  /** The constructor's table: a large specimen is worth more, is bigger and flees faster. */
  function TraitsOf(k: Kind): (t: Traits)
    ensures t.value > 0 && t.size > 0.0 && 0.0 < t.idleSpeed < t.panicSpeed
  {
    match k
    case Small => Traits(1, 1.0, Color(0.0, 0.0, 1.0, 1.0), IdleSpeed, SmallPanicSpeed)
    case Large => Traits(10, 2.0, Color(1.0, 0.0, 0.0, 1.0), IdleSpeed, LargePanicSpeed)
  }

  /** A large specimen is worth more, is bigger and flees faster; both idle at the same speed. */
  lemma LargeOutranksSmall()
    ensures TraitsOf(Large).value > TraitsOf(Small).value && TraitsOf(Large).size > TraitsOf(Small).size
    ensures TraitsOf(Large).panicSpeed > TraitsOf(Small).panicSpeed
    ensures TraitsOf(Large).idleSpeed == TraitsOf(Small).idleSpeed
  {}

  class SpecimenComponent {
    var position: Vec3
    /** The point the specimen wanders around. */
    var startPosition: Vec3
    var target: Option<Vec3>
    var rotation: Quat
    var surfaceRotation: Quat
    const specimenType: Kind
    /** Shrinks in place while the specimen is being captured. */
    var size: Vec3
    const originalSize: Vec3
    const value: int
    const color: Color
    const idleSpeed: real
    const panicSpeed: real
    /** Unset (falsy) until the specimen first panics. */
    var paniced: bool

    constructor(position: Vec3, specimenType: Kind)
      ensures this.position == position && startPosition == position && target == None
      ensures this.specimenType == specimenType && !paniced
      ensures var t := TraitsOf(specimenType);
        && value == t.value && size == Vec3(t.size, t.size, t.size) && color == t.color
        && idleSpeed == t.idleSpeed && panicSpeed == t.panicSpeed
      ensures originalSize == size
      ensures rotation == Identity && surfaceRotation == Identity
    {
      this.position := position;
      startPosition := position;
      match specimenType {
        case Small =>
          value := 1;
          size := Vec3(1.0, 1.0, 1.0);
          color := Color(0.0, 0.0, 1.0, 1.0);
          idleSpeed := IdleSpeed;
          panicSpeed := SmallPanicSpeed;
        case Large =>
          value := 10;
          size := Vec3(2.0, 2.0, 2.0);
          color := Color(1.0, 0.0, 0.0, 1.0);
          idleSpeed := IdleSpeed;
          panicSpeed := LargePanicSpeed;
      }
      originalSize := size;
      rotation := Identity;
      surfaceRotation := Identity;
      this.specimenType := specimenType;
      target := None;
      paniced := false;
    }
  }
}
