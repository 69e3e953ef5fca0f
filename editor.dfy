/**
 * The stand-alone editor app state: the pointer ray meets the ground, snaps to
 * the nearest stored wall endpoint or to the grid, and a press-drag-release
 * gesture commits a wall between the two snapped points.
 */
module Editor {
  import opened Wrappers
  import opened Vectors
  import opened Scene
  import opened Snapping
  import opened Walls

  /** The user-data keys under which this editor stores a wall's two points. */
  const StartKey: string := "start"
  const EndKey: string := "end"
  /** A wall is committed only for distance > 0.1, that is squared distance > 0.01. */
  const MinWallLengthSq: real := 0.01
  /** The fly-by camera's move speed while editing. */
  const EditSpeed: real := 20.0

  /** snapToNearestEdge looks only at Geometry children that carry "start" data. */
  predicate Scanned(c: Spatial) {
    c.isGeometry && StartKey in c.userData
  }

  /** A scanned child also carries "end" data; the scan reads it unchecked. */
  predicate Paired(c: Spatial) {
    Scanned(c) ==> EndKey in c.userData
  }

  predicate AllPaired(children: seq<Spatial>) {
    forall i :: 0 <= i < |children| ==> Paired(children[i])
  }

  /** The endpoints a child contributes to the scan: "start" then "end", or none. */
  function ChildEndpoints(c: Spatial): seq<Vec3>
    requires Paired(c)
  {
    if Scanned(c) then [c.userData[StartKey], c.userData[EndKey]] else []
  }

  /** The endpoints of the scanned children, in scan order. */
  function Endpoints(children: seq<Spatial>): seq<Vec3>
    requires AllPaired(children)
    decreases |children|
  {
    if |children| == 0 then []
    else Endpoints(children[..|children| - 1]) + ChildEndpoints(children[|children| - 1])
  }

  lemma EndpointsAppend(children: seq<Spatial>, c: Spatial)
    requires AllPaired(children) && Paired(c)
    ensures AllPaired(children + [c])
    ensures Endpoints(children + [c]) == Endpoints(children) + ChildEndpoints(c)
  {
    assert (children + [c])[..|children|] == children;
  }

  /** A child that is not a Geometry, or carries no "start" data, is invisible to snapping. */
  lemma UnscannedChildIgnored(children: seq<Spatial>, c: Spatial)
    requires AllPaired(children) && !Scanned(c)
    ensures AllPaired(children + [c]) && Endpoints(children + [c]) == Endpoints(children)
  {
    EndpointsAppend(children, c);
  }

  /**
   * getMouseWorldPoint: the point where the pointer ray meets y = 0, or the ray's
   * origin when the ray is parallel to the plane or meets it only behind the origin.
   */
  function MouseWorldPoint(ray: Ray): (p: Vec3)
    ensures Parallel(ray) ==> p == ray.origin
    ensures !Parallel(ray) && HitParam(ray) < 0.0 ==> p == ray.origin
    ensures !Parallel(ray) && HitParam(ray) >= 0.0 ==> p == PlaneHit(ray) && p.y == 0.0
  {
    if Parallel(ray) then ray.origin
    else if HitParam(ray) < 0.0 then ray.origin
    else PlaneHit(ray)
  }

  /**
   * A non-parallel ray meets the plane ahead of (or at) its origin exactly when
   * it starts on the plane or its direction points toward the plane.
   */
  lemma GroundAheadIffHeadingDown(ray: Ray)
    requires !Parallel(ray)
    ensures HitParam(ray) >= 0.0 <==>
      ray.origin.y == 0.0 || (ray.origin.y > 0.0 && ray.dir.y < 0.0) || (ray.origin.y < 0.0 && ray.dir.y > 0.0)
  {
    var o, d := ray.origin.y, ray.dir.y;
    assert HitParam(ray) * d == -o;
    if d > 0.0 {
      assert HitParam(ray) >= 0.0 <==> HitParam(ray) * d >= 0.0;
    } else {
      assert d < 0.0;
      assert HitParam(ray) >= 0.0 <==> HitParam(ray) * d <= 0.0;
    }
  }

  /**
   * snapToNearestEdge: every scanned child's "start" point, then its "end" point,
   * becomes the candidate when strictly closer than the best so far, which starts at 0.5.
   */
  method SnapToNearestEdge(children: seq<Spatial>, pos: Vec3) returns (nearest: Option<Vec3>)
    requires AllPaired(children)
    ensures nearest == NearestEndpoint(Endpoints(children), pos)
  {
    nearest := None;
    var minDistSq := SnapThresholdSq;
    var i := 0;
    while i < |children|
      invariant 0 <= i <= |children|
      invariant AllPaired(children[..i])
      invariant Scan(Endpoints(children[..i]), pos) == ScanState(minDistSq, nearest)
    {
      var c := children[i];
      minDistSq, nearest := ConsiderChild(Endpoints(children[..i]), minDistSq, nearest, pos, c);
      assert children[..i + 1] == children[..i] + [c];
      EndpointsAppend(children[..i], c);
      i := i + 1;
    }
    assert children[..|children|] == children;
  }

  /** The body of the scan loop for one child. */
  method ConsiderChild(ghost seen: seq<Vec3>, minDistSq: real, nearest: Option<Vec3>, pos: Vec3, c: Spatial)
    returns (minDistSq': real, nearest': Option<Vec3>)
    requires Paired(c) && Scan(seen, pos) == ScanState(minDistSq, nearest)
    ensures Scan(seen + ChildEndpoints(c), pos) == ScanState(minDistSq', nearest')
  {
    minDistSq', nearest' := minDistSq, nearest;
    if c.isGeometry && StartKey in c.userData {
      var sStart := c.userData[StartKey];
      var sEnd := c.userData[EndKey];
      ScanAppend(seen, sStart, pos);
      minDistSq', nearest' := Consider(minDistSq', nearest', pos, sStart);
      ScanAppend(seen + [sStart], sEnd, pos);
      minDistSq', nearest' := Consider(minDistSq', nearest', pos, sEnd);
      assert seen + [sStart] + [sEnd] == seen + ChildEndpoints(c);
    } else {
      assert seen + ChildEndpoints(c) == seen;
    }
  }

  /** getSnappedPoint for a given pointer ray: the edge snap when there is one, else the grid snap. */
  function SnapPoint(children: seq<Spatial>, ray: Ray): Vec3
    requires AllPaired(children)
  {
    match NearestEndpoint(Endpoints(children), MouseWorldPoint(ray))
    case Some(q) => q
    case None => SnapToGrid(MouseWorldPoint(ray))
  }

  /** getSnappedPoint prefers the first nearest endpoint under 0.5; only without one does it round to the grid. */
  lemma SnapPointSpec(children: seq<Spatial>, ray: Ray)
    requires AllPaired(children)
    ensures var pts, raw := Endpoints(children), MouseWorldPoint(ray);
      (exists j :: 0 <= j < |pts| && DistSq(raw, pts[j]) < SnapThresholdSq) ==>
        exists k :: IsFirstNearest(pts, raw, k) && SnapPoint(children, ray) == pts[k]
    ensures var pts, raw := Endpoints(children), MouseWorldPoint(ray);
      (forall j :: 0 <= j < |pts| ==> DistSq(raw, pts[j]) >= SnapThresholdSq) ==>
        SnapPoint(children, ray) == SnapToGrid(raw) && SnapPoint(children, ray).y == 0.0
  {
    NearestEndpointSpec(Endpoints(children), MouseWorldPoint(ray));
  }

  method GetSnappedPoint(children: seq<Spatial>, ray: Ray) returns (p: Vec3)
    requires AllPaired(children)
    ensures p == SnapPoint(children, ray)
  {
    var rawPos := MouseWorldPoint(ray);
    var edgeSnapped := SnapToNearestEdge(children, rawPos);
    if edgeSnapped.Some? {
      return edgeSnapped.value;
    }
    return SnapToGrid(rawPos);
  }

  /** The wall this editor's createWall attaches for start and end. */
  function Wall(start: Vec3, end: Vec3): Spatial {
    WallSpatial(start, end, StartKey, EndKey)
  }

  /** A committed wall is scanned, and adds exactly its two points, start first, to later snaps. */
  lemma CommittedWallIsSnappable(children: seq<Spatial>, start: Vec3, end: Vec3)
    requires AllPaired(children)
    ensures Scanned(Wall(start, end)) && AllPaired(children + [Wall(start, end)])
    ensures Endpoints(children + [Wall(start, end)]) == Endpoints(children) + [start, end]
  {
    EndpointsAppend(children, Wall(start, end));
  }

  /** The editor app state over a level node and a physics space it shares. */
  class DrawState {
    const world: World
    /** The snapped point where the open gesture began; None when no gesture is open. */
    var startPoint: Option<Vec3>
    /** The preview line, when there is one. */
    var currentLineGeom: Option<Line>
    /** The preview lines attached under the editor node. */
    var previews: set<Line>

    /** At most the referenced preview is shown, and every scanned level child is a complete wall. */
    ghost predicate Valid()
      reads this, world
    {
      previews <= Referenced(currentLineGeom) && AllPaired(world.levelNode)
    }

    constructor (world: World)
      ensures this.world == world
      ensures startPoint == None && currentLineGeom == None && previews == {}
      ensures Valid() <==> AllPaired(world.levelNode)
    {
      this.world := world;
      startPoint := None;
      currentLineGeom := None;
      previews := {};
    }

    method OnEnable()
      modifies world`flySpeed
      ensures world.flySpeed == EditSpeed
    {
      world.flySpeed := EditSpeed;
    }

    /** Drops the open gesture and its preview; no wall is committed. */
    method OnDisable()
      requires Valid()
      modifies this
      ensures Valid()
      ensures startPoint == None && currentLineGeom == None && previews == {}
    {
      if currentLineGeom.Some? {
        previews := previews - {currentLineGeom.value};
        currentLineGeom := None;
      }
      startPoint := None;
    }

    /** While a gesture is open, the preview is redrawn to the snapped point under the pointer. */
    method Update(ray: Ray)
      requires Valid()
      modifies this
      ensures Valid() && startPoint == old(startPoint)
      ensures old(startPoint).None? ==> currentLineGeom == old(currentLineGeom) && previews == old(previews)
      ensures old(startPoint).Some? ==>
        currentLineGeom == Some(Line(old(startPoint).value, SnapPoint(world.levelNode, ray)))
        && previews == {currentLineGeom.value}
    {
      if startPoint.Some? {
        var endPoint := GetSnappedPoint(world.levelNode, ray);
        UpdateVisualLine(startPoint.value, endPoint);
      }
    }

    /** Detaches the previous preview and attaches a new one from start to end. */
    method UpdateVisualLine(start: Vec3, end: Vec3)
      requires Valid()
      modifies this`currentLineGeom, this`previews
      ensures Valid()
      ensures currentLineGeom == Some(Line(start, end)) && previews == {Line(start, end)}
    {
      if currentLineGeom.Some? {
        previews := previews - {currentLineGeom.value};
      }
      var line := Line(start, end);
      currentLineGeom := Some(line);
      previews := previews + {line};
    }

    /**
     * "Draw" pressed: the gesture starts at the snapped point, replacing any open one.
     * "Draw" released with a gesture open: a wall is committed iff the squared distance
     * exceeds 0.01, and the gesture and its preview are cleared in both cases.
     */
    method OnAction(name: string, isPressed: bool, ray: Ray)
      requires Valid()
      modifies this, world`levelNode, world`physics
      ensures Valid()
      ensures name != "Draw" || (!isPressed && old(startPoint).None?) ==>
        unchanged(this) && world.levelNode == old(world.levelNode) && world.physics == old(world.physics)
      ensures name == "Draw" && isPressed ==>
        startPoint == Some(SnapPoint(old(world.levelNode), ray))
        && currentLineGeom == old(currentLineGeom) && previews == old(previews)
        && world.levelNode == old(world.levelNode) && world.physics == old(world.physics)
      ensures name == "Draw" && !isPressed && old(startPoint).Some? ==>
        var s, e := old(startPoint).value, SnapPoint(old(world.levelNode), ray);
        startPoint == None && currentLineGeom == None && previews == {}
        && (DistSq(s, e) > MinWallLengthSq ==>
              world.levelNode == old(world.levelNode) + [Wall(s, e)]
              && world.physics == old(world.physics) + {WallBody(|old(world.levelNode)|)})
        && (DistSq(s, e) <= MinWallLengthSq ==>
              world.levelNode == old(world.levelNode) && world.physics == old(world.physics))
    {
      if name == "Draw" {
        if isPressed {
          var p := GetSnappedPoint(world.levelNode, ray);
          startPoint := Some(p);
        } else {
          if startPoint.Some? {
            var endPoint := GetSnappedPoint(world.levelNode, ray);
            if DistSq(startPoint.value, endPoint) > MinWallLengthSq {
              CreateWall(startPoint.value, endPoint);
            }
            startPoint := None;
            if currentLineGeom.Some? {
              previews := previews - {currentLineGeom.value};
              currentLineGeom := None;
            }
          }
        }
      }
    }

    /** Registers the wall's static body and appends the wall as the level's last child. */
    method CreateWall(start: Vec3, end: Vec3)
      requires AllPaired(world.levelNode)
      modifies world`levelNode, world`physics
      ensures AllPaired(world.levelNode)
      ensures world.levelNode == old(world.levelNode) + [Wall(start, end)]
      ensures world.physics == old(world.physics) + {WallBody(|old(world.levelNode)|)}
    {
      CommittedWallIsSnappable(world.levelNode, start, end);
      world.physics := world.physics + {WallBody(|world.levelNode|)};
      world.levelNode := world.levelNode + [Wall(start, end)];
    }
  }
}
