/**
 * The engine-side context the modes work against: the level node's children,
 * the physics space, the fly-by camera's move speed and the camera location.
 * Rendering, input mapping and the physics simulation itself are outside the model.
 */
module Scene {
  import opened Wrappers
  import opened Vectors

  /** Half-sizes of a wall's box. The half-length is kept squared, since sqrt is not modelled. */
  datatype BoxExtents = BoxExtents(halfLengthSq: real, halfHeight: real, halfThickness: real)

  /**
   * A child of the level node: whether it is a Geometry, its local translation,
   * its box shape when it has one, and the Vector3f values stored as user data by key.
   */
  datatype Spatial = Spatial(isGeometry: bool, translation: Vec3, box: Option<BoxExtents>, userData: map<string, Vec3>)

  /** What can be registered with the physics space. A wall's body is named by its child index. */
  datatype Body = FloorBody | WallBody(child: nat) | PlayerBody

  /** A preview line geometry, by its two end points. */
  datatype Line = Line(from: Vec3, to: Vec3)

  /** A pick ray: its origin on the near plane and its (normalised) direction. */
  datatype Ray = Ray(origin: Vec3, dir: Vec3)

  /** The preview lines a reference may point at: none for null, one otherwise. */
  function Referenced(g: Option<Line>): set<Line> {
    if g.Some? then {g.value} else {}
  }

  class World {
    /** The level node's children, in attachment order. */
    var levelNode: seq<Spatial>
    /** The bodies registered with the physics space. */
    ghost var physics: set<Body>
    /** The fly-by camera's move speed. */
    var flySpeed: real
    /** The camera location. */
    var camLocation: Vec3

    constructor (levelNode: seq<Spatial>, ghost physics: set<Body>, flySpeed: real, camLocation: Vec3)
      ensures this.levelNode == levelNode && this.physics == physics
      ensures this.flySpeed == flySpeed && this.camLocation == camLocation
    {
      this.levelNode := levelNode;
      this.physics := physics;
      this.flySpeed := flySpeed;
      this.camLocation := camLocation;
    }
  }
}
