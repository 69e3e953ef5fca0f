/**
 * The wall createWall attaches to the level node: a box Geometry centred
 * between the two points, resting on the ground, carrying the points as user data.
 */
module Walls {
  import opened Wrappers
  import opened Vectors
  import opened Scene

  /** The editors' wallHeight and wallThickness fields; they are never changed. */
  const WallHeight: real := 3.0
  const WallThickness: real := 0.2

  /**
   * The wall for the segment from start to end, storing the two points under
   * startKey and endKey. Its centre is the midpoint raised to WallHeight / 2, so the
   * box rests on y = 0; its half-extents are (length / 2, WallHeight / 2, WallThickness / 2).
   */
  function WallSpatial(start: Vec3, end: Vec3, startKey: string, endKey: string): (w: Spatial)
    requires startKey != endKey
    ensures w.isGeometry && w.box.Some?
    ensures w.userData.Keys == {startKey, endKey}
    ensures w.userData[startKey] == start && w.userData[endKey] == end
    ensures 2.0 * w.translation.x == start.x + end.x && 2.0 * w.translation.z == start.z + end.z
    ensures w.translation.y - w.box.value.halfHeight == 0.0
    ensures w.translation.y + w.box.value.halfHeight == WallHeight
    ensures 2.0 * w.box.value.halfThickness == WallThickness
    ensures 4.0 * w.box.value.halfLengthSq == DistSq(start, end)
  {
    var center := Scale(Add(start, end), 0.5);
    Spatial(true, Vec3(center.x, WallHeight / 2.0, center.z),
      Some(BoxExtents(DistSq(start, end) / 4.0, WallHeight / 2.0, WallThickness / 2.0)),
      map[startKey := start, endKey := end])
  }

  /**
   * For a segment at one height, the box's half-length reaches from the centre
   * (taken at that height) exactly to each of the two endpoints.
   */
  lemma WallBoxReachesEndpoints(start: Vec3, end: Vec3, startKey: string, endKey: string)
    requires startKey != endKey && start.y == end.y
    ensures var w := WallSpatial(start, end, startKey, endKey);
      var c := Vec3(w.translation.x, start.y, w.translation.z);
      DistSq(c, start) == w.box.value.halfLengthSq && DistSq(c, end) == w.box.value.halfLengthSq
  {
    var w := WallSpatial(start, end, startKey, endKey);
    var c := Vec3(w.translation.x, start.y, w.translation.z);
    var dx, dz := end.x - start.x, end.z - start.z;
    assert c.x - start.x == dx * 0.5 && c.x - end.x == -(dx * 0.5);
    assert c.z - start.z == dz * 0.5 && c.z - end.z == -(dz * 0.5);
    SqHalf(dx);
    SqHalf(dz);
    SqNeg(dx * 0.5);
    SqNeg(dz * 0.5);
    SqNeg(dx);
    SqNeg(dz);
    assert Sq(start.x - end.x) == Sq(dx) by { assert start.x - end.x == -dx; }
    assert Sq(start.z - end.z) == Sq(dz) by { assert start.z - end.z == -dz; }
    assert Sq(0.0) == 0.0;
  }
}
