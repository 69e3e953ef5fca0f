/**
 * The character walking computation of the game states' update: the walk vector
 * built from the four key flags, what is handed to the character control, and
 * the eye-height offset between the camera and the character's feet.
 */
module Motion {
  import opened Vectors

  /** The character's walking speed and the camera's height above its feet. */
  const WalkSpeed: real := 8.0
  const EyeHeight: real := 1.6

  /** v when only the plus key is held, its negation when only the minus key is, else zero. */
  function Net(v: Vec3, plus: bool, minus: bool): Vec3 {
    if plus && !minus then v else if minus && !plus then Neg(v) else Zero
  }

  /** The walk vector before normalisation: the net sideways part plus the net forward part. */
  function WalkIntent(left: bool, right: bool, up: bool, down: bool, camLeft: Vec3, camDir: Vec3): Vec3 {
    Add(Net(camLeft, left, right), Net(camDir, up, down))
  }

  /**
   * The accumulation in update: start from zero and add camLeft, the negated
   * camLeft, camDir and the negated camDir for the keys held. The negations
   * happen in place on the local copies, as negateLocal does.
   */
  method AccumulateWalk(left: bool, right: bool, up: bool, down: bool, camLeft: Vec3, camDir: Vec3)
    returns (walk: Vec3)
    ensures walk == WalkIntent(left, right, up, down, camLeft, camDir)
  {
    var l, d := camLeft, camDir;
    walk := Zero;
    if left { walk := Add(walk, l); }
    if right { l := Neg(l); walk := Add(walk, l); }
    if up { walk := Add(walk, d); }
    if down { d := Neg(d); walk := Add(walk, d); }
  }

  function Indicator(b: bool): real {
    if b then 1.0 else 0.0
  }

  /**
   * The walk vector is (left - right) * camLeft + (up - down) * camDir, each key
   * counting 1 when held; in particular two opposite keys cancel.
   */
  lemma WalkIntentIsSignedSum(left: bool, right: bool, up: bool, down: bool, camLeft: Vec3, camDir: Vec3)
    ensures WalkIntent(left, right, up, down, camLeft, camDir)
      == Add(Scale(camLeft, Indicator(left) - Indicator(right)), Scale(camDir, Indicator(up) - Indicator(down)))
  {
  }

  /**
   * The walk direction handed to the character control: either the raw vector
   * itself (Stand) or the raw vector to be normalised and scaled by a speed (Heading).
   */
  datatype WalkCommand = Stand(v: Vec3) | Heading(raw: Vec3, speed: real)

  /**
   * What walk.normalizeLocal().multLocal(8f) hands over: jME's normalizeLocal
   * leaves a zero vector unchanged, so the zero vector is passed on as it is and
   * any other vector is normalised and scaled by 8.
   */
  function Command(walk: Vec3): (c: WalkCommand)
    ensures c.Stand? <==> walk == Zero
    ensures c.Stand? ==> c.v == Zero
    ensures c.Heading? ==> c.raw == walk && c.speed == WalkSpeed
  {
    if walk == Zero then Stand(walk) else Heading(walk, WalkSpeed)
  }

  /** normalizeLocal's own test is on the squared length, which is zero exactly for the zero vector. */
  lemma CommandFollowsLengthTest(walk: Vec3)
    ensures Command(walk).Stand? <==> LengthSq(walk) == 0.0
  {
    LengthSqZero(walk);
  }

  /** The guarded normalisation of the walking state's update: only a positive squared length is normalised. */
  method NormalizeIfMoving(walk: Vec3) returns (c: WalkCommand)
    ensures c == Command(walk)
  {
    CommandFollowsLengthTest(walk);
    if LengthSq(walk) > 0.0 {
      c := Heading(walk, WalkSpeed);
    } else {
      c := Stand(walk);
    }
  }

  /** The feet position a camera location corresponds to: 1.6 below it. */
  function FeetBelow(cam: Vec3): Vec3 {
    Vec3(cam.x, cam.y - EyeHeight, cam.z)
  }

  /** The camera location for a feet position: 1.6 above it. */
  function EyeAbove(feet: Vec3): Vec3 {
    Vec3(feet.x, feet.y + EyeHeight, feet.z)
  }

  /** Warping the character below the camera and following it with the camera are inverse. */
  lemma EyeFeetRoundTrip(p: Vec3)
    ensures EyeAbove(FeetBelow(p)) == p && FeetBelow(EyeAbove(p)) == p
    ensures FeetBelow(p).x == p.x && FeetBelow(p).z == p.z && FeetBelow(p).y == p.y - EyeHeight
  {
  }
}
