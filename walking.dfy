/**
 * The stand-alone game app state: whether the character is walking, which
 * registers its collider with the physics space, the four walking keys, and
 * the per-frame walk direction and camera follow.
 */
module Walking {
  import opened Vectors
  import opened Scene
  import opened Motion

  /** The fly-by camera's move speed whenever the character is not walking. */
  const FreeFlySpeed: real := 20.0

  class WalkState {
    const world: World
    var isWalking: bool
    var left: bool
    var right: bool
    var up: bool
    var down: bool
    /** Where the character control was last warped to. */
    var playerFeet: Vec3
    /** The walk direction last handed to the character control. */
    var walkDirection: WalkCommand

    /** The character's collider is registered exactly while it is walking. */
    ghost predicate Valid()
      reads this, world
    {
      PlayerBody in world.physics <==> isWalking
    }

    constructor (world: World)
      ensures this.world == world && !isWalking
      ensures !left && !right && !up && !down
      ensures playerFeet == Zero && walkDirection == Stand(Zero)
      ensures Valid() <==> PlayerBody !in world.physics
    {
      this.world := world;
      isWalking := false;
      left, right, up, down := false, false, false, false;
      playerFeet := Zero;
      walkDirection := Stand(Zero);
    }

    /**
     * Starting to walk warps the character 1.6 below the camera, registers it and
     * stops the fly-by camera; stopping unregisters it and restores speed 20.
     */
    method SetWalking(walking: bool)
      modifies this`isWalking, this`playerFeet, world`physics, world`flySpeed
      ensures Valid() && isWalking == walking
      ensures walking ==>
        && playerFeet == FeetBelow(world.camLocation)
        && world.physics == old(world.physics) + {PlayerBody}
        && world.flySpeed == 0.0
      ensures !walking ==>
        && playerFeet == old(playerFeet)
        && world.physics == old(world.physics) - {PlayerBody}
        && world.flySpeed == FreeFlySpeed
    {
      isWalking := walking;
      if isWalking {
        playerFeet := FeetBelow(world.camLocation);
        world.physics := world.physics + {PlayerBody};
        world.flySpeed := 0.0;
      } else {
        world.physics := world.physics - {PlayerBody};
        world.flySpeed := FreeFlySpeed;
      }
    }

    /** Enabling the state starts walking. */
    method OnEnable()
      modifies this`isWalking, this`playerFeet, world`physics, world`flySpeed
      ensures Valid() && isWalking
      ensures playerFeet == FeetBelow(world.camLocation)
      ensures world.physics == old(world.physics) + {PlayerBody} && world.flySpeed == 0.0
    {
      SetWalking(true);
    }

    /** Disabling the state stops walking, and touches the physics space only if it was walking. */
    method OnDisable()
      requires Valid()
      modifies this`isWalking, this`playerFeet, world`physics, world`flySpeed
      ensures Valid() && !isWalking && PlayerBody !in world.physics
      ensures old(isWalking) ==> world.physics == old(world.physics) - {PlayerBody} && world.flySpeed == FreeFlySpeed
      ensures !old(isWalking) ==> world.physics == old(world.physics) && world.flySpeed == old(world.flySpeed)
      ensures playerFeet == old(playerFeet)
    {
      if isWalking {
        SetWalking(false);
      }
    }

    /** Sets exactly the flag the action names to isPressed; other names change nothing. */
    method OnAction(name: string, isPressed: bool)
      modifies this`left, this`right, this`up, this`down
      ensures left == (if name == "WalkLeft" then isPressed else old(left))
      ensures right == (if name == "WalkRight" then isPressed else old(right))
      ensures up == (if name == "WalkUp" then isPressed else old(up))
      ensures down == (if name == "WalkDown" then isPressed else old(down))
    {
      if name == "WalkLeft" {
        left := isPressed;
      } else if name == "WalkRight" {
        right := isPressed;
      } else if name == "WalkUp" {
        up := isPressed;
      } else if name == "WalkDown" {
        down := isPressed;
      }
    }

    /**
     * While walking: the walk direction is rebuilt from the held keys, normalised
     * and scaled to 8 only when its squared length is positive, handed to the
     * character, and the camera follows 1.6 above the character's position.
     * camDir and camLeft are the camera's facing and left vectors flattened to y = 0
     * and normalised; playerPos is the position the physics space reports.
     */
    method Update(camDir: Vec3, camLeft: Vec3, playerPos: Vec3)
      modifies this`walkDirection, world`camLocation
      ensures isWalking ==>
        && walkDirection == Command(WalkIntent(left, right, up, down, camLeft, camDir))
        && world.camLocation == EyeAbove(playerPos)
      ensures !isWalking ==> walkDirection == old(walkDirection) && world.camLocation == old(world.camLocation)
    {
      if isWalking {
        var walk := AccumulateWalk(left, right, up, down, camLeft, camDir);
        var c := NormalizeIfMoving(walk);
        assert c == Command(WalkIntent(left, right, up, down, camLeft, camDir));
        walkDirection := c;
        world.camLocation := EyeAbove(playerPos);
      }
    }
  }
}
