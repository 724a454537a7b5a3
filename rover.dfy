/** `RoverComponent`: the player's vehicle, whose state `RoverSystem` updates every tick. */
module Rovers {
  import opened Wrappers
  import opened Vectors

  /** The fuel gauge's full mark. */
  const FullBoost: real := 100.0

  class RoverComponent {
    var position: Vec3
    var rotation: Quat
    var velocity: Vec3
    const mass: real
    /** The orientation of the ground under the rover, eased towards each new surface. */
    var surfaceRotation: Quat
    /** The normal of the ground the rover stands on; None while airborne. */
    var surfaceNormal: Option<Vec3>
    /** -1, 0 or 1: the direction of the last turn. */
    var turning: int
    /** Not set by the constructor (falsy) until the first tick. */
    var boost: bool
    var boostRemaining: real
    var tilt: real

    /** Position, rotation and mass as given; at rest, airborne, untilted, with a full tank. */
    constructor(position: Vec3, rotation: Quat, mass: real)
      ensures this.position == position && this.rotation == rotation && this.mass == mass
      ensures velocity == Zero && surfaceRotation == Identity && surfaceNormal == None
      ensures turning == 0 && tilt == 0.0 && boostRemaining == FullBoost && !boost
    {
      this.position := position;
      this.rotation := rotation;
      velocity := Zero;
      this.mass := mass;
      surfaceRotation := Identity;
      surfaceNormal := None;
      turning := 0;
      tilt := 0.0;
      boostRemaining := FullBoost;
      boost := false;
    }
  }
}
