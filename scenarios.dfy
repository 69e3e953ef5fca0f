/**
 * Worked examples of the project editor, starting from its initial state: where a pick
 * ray snaps, which gestures commit a wall, and what a toggle leaves behind.
 */
module Scenarios {
  import opened Wrappers
  import opened Vectors
  import opened Scene
  import opened Snapping
  import opened Project

  /** Straight down. */
  const Down: Vec3 := Vec3(0.0, -1.0, 0.0)

  /** A ray straight down meets the ground right below its origin. */
  lemma DownRayHitsBelow(o: Vec3)
    ensures !Parallel(Ray(o, Down))
    ensures PlaneHit(Ray(o, Down)) == Vec3(o.x, 0.0, o.z)
  {
    assert HitParam(Ray(o, Down)) == o.y;
  }

  /** Over an empty level, a ray straight down from (0, 5, 0) snaps to the grid point at the origin. */
  lemma EmptyLevelSnapsToGrid()
    ensures SnapPoint([], Ray(Vec3(0.0, 5.0, 0.0), Down)) == Zero
  {
    DownRayHitsBelow(Vec3(0.0, 5.0, 0.0));
    assert Endpoints([]) == [];
    assert JavaRound(0.0) == 0;
  }

  /** Of two stored points, the first wins when it is under the threshold and no farther than the second. */
  lemma FirstOfTwoWins(pos: Vec3, s: Vec3, e: Vec3)
    requires DistSq(pos, s) < SnapThresholdSq && DistSq(pos, s) <= DistSq(pos, e)
    ensures NearestEndpoint([s, e], pos) == Some(s)
  {
    ScanAppend([], s, pos);
    ScanAppend([s], e, pos);
    assert [] + [s] == [s];
    assert [s] + [e] == [s, e];
  }

  /** A squared distance is the squared length of the difference, whatever form that is given in. */
  lemma DistSqOfDifference(a: Vec3, b: Vec3, d: Vec3)
    requires Sub(a, b) == d
    ensures DistSq(a, b) == LengthSq(d)
  {
  }

  lemma DistToStoredStart()
    ensures DistSq(Vec3(3.2, 0.0, 4.1), Vec3(3.0, 0.0, 4.0)) == 0.05
  {
    DistSqOfDifference(Vec3(3.2, 0.0, 4.1), Vec3(3.0, 0.0, 4.0), Vec3(0.2, 0.0, 0.1));
    assert LengthSq(Vec3(0.2, 0.0, 0.1)) == 0.05;
  }

  lemma DistToStoredEnd()
    ensures DistSq(Vec3(3.2, 0.0, 4.1), Vec3(10.0, 0.0, 4.0)) == 46.25
  {
    DistSqOfDifference(Vec3(3.2, 0.0, 4.1), Vec3(10.0, 0.0, 4.0), Vec3(-6.8, 0.0, 0.1));
    assert LengthSq(Vec3(-6.8, 0.0, 0.1)) == 46.25;
  }

  /**
   * Over a level holding one wall from s to e, a ray straight down snaps onto s
   * when its hit is under the threshold from s and no farther from s than from e.
   */
  lemma SnapsToStartOfOnlyWall(o: Vec3, s: Vec3, e: Vec3)
    requires DistSq(Vec3(o.x, 0.0, o.z), s) < SnapThresholdSq
    requires DistSq(Vec3(o.x, 0.0, o.z), s) <= DistSq(Vec3(o.x, 0.0, o.z), e)
    ensures SnapPoint([Wall(s, e)], Ray(o, Down)) == s
  {
    DownRayHitsBelow(o);
    CommittedWallIsSnappable([], s, e);
    assert [] + [Wall(s, e)] == [Wall(s, e)];
    assert Endpoints([]) == [];
    assert Endpoints([Wall(s, e)]) == [s, e];
    FirstOfTwoWins(Vec3(o.x, 0.0, o.z), s, e);
  }

  /** A hit at (3.2, 0, 4.1) lies within 0.5 of the stored point (3, 0, 4) and snaps onto it. */
  lemma HitNearStoredPointSnapsToIt(o: Vec3, s: Vec3, e: Vec3)
    requires o == Vec3(3.2, 5.0, 4.1) && s == Vec3(3.0, 0.0, 4.0) && e == Vec3(10.0, 0.0, 4.0)
    ensures SnapPoint([Wall(s, e)], Ray(o, Down)) == s
  {
    DistToStoredStart();
    DistToStoredEnd();
    SnapsToStartOfOnlyWall(o, s, e);
  }

  /** The initial application, toggled into Edit. */
  method EnterEdit() returns (app: App)
    ensures fresh(app) && fresh(app.world) && fresh(app.editorState) && fresh(app.gameState)
    ensures app.Valid() && app.CurrentMode() == Edit
    ensures app.world.levelNode == [] && app.world.physics == {FloorBody}
    ensures app.editorState.startPoint == None && app.editorState.previews == {}
  {
    app := new App();
    app.OnAction("ToggleMode", true);
    assert app.world.physics - {PlayerBody} == {FloorBody};
  }

  /** Over an empty level, a ray straight down snaps to the grid point nearest below its origin. */
  lemma EmptyLevelSnapsDown(o: Vec3)
    ensures SnapPoint([], Ray(o, Down)) == SnapToGrid(o)
  {
    DownRayHitsBelow(o);
    assert Endpoints([]) == [];
  }

  /**
   * A press above from and a release above to over an empty level: a wall between
   * the two grid points is committed exactly when they are more than 0.1 apart.
   */
  method DrawOverEmptyLevel(from: Vec3, to: Vec3) returns (app: App)
    ensures app.Valid() && app.CurrentMode() == Edit
    ensures var a, b := SnapToGrid(from), SnapToGrid(to);
      && (DistSq(a, b) > MinWallLengthSq ==>
            app.world.levelNode == [Wall(a, b)] && app.world.physics == {FloorBody, WallBody(0)}
            && Endpoints(app.world.levelNode) == [a, b])
      && (DistSq(a, b) <= MinWallLengthSq ==>
            app.world.levelNode == [] && app.world.physics == {FloorBody})
    ensures app.editorState.startPoint == None && app.editorState.previews == {}
  {
    app := EnterEdit();
    EmptyLevelSnapsDown(from);
    EmptyLevelSnapsDown(to);
    app.EditorAction("Draw", true, Ray(from, Down));
    app.EditorAction("Draw", false, Ray(to, Down));
    CommittedWallIsSnappable([], SnapToGrid(from), SnapToGrid(to));
    assert Endpoints([]) == [];
  }

  /**
   * Toggling back to Play with a gesture open and its preview shown: the level is
   * unchanged, no preview line remains and the player body is registered again.
   */
  method ToggleAwayFromOpenGesture(press: Ray, hover: Ray) returns (app: App)
    ensures app.Valid() && app.CurrentMode() == Play
    ensures app.world.levelNode == [] && app.world.physics == {FloorBody, PlayerBody}
    ensures app.editorState.startPoint == None && app.editorState.previews == {}
  {
    app := EnterEdit();
    app.EditorAction("Draw", true, press);
    app.Update(hover, Down, Zero, Zero);
    assert app.editorState.previews == {Line(SnapPoint([], press), SnapPoint([], hover))};
    app.OnAction("ToggleMode", true);
    assert app.world.physics - {PlayerBody} == {FloorBody};
  }

  /** A walking key held when leaving Play is still held when Play resumes, and so is the last command. */
  method KeyHeldAcrossToggles(app: App)
    requires app.Valid() && app.CurrentMode() == Play
    modifies app, app.world, app.editorState, app.gameState
    ensures app.Valid() && app.CurrentMode() == Play
    ensures app.gameState.left == old(app.gameState.left) && app.gameState.right == old(app.gameState.right)
    ensures app.gameState.up == old(app.gameState.up) && app.gameState.down == old(app.gameState.down)
    ensures app.gameState.playerWalk == old(app.gameState.playerWalk)
    ensures app.world.levelNode == old(app.world.levelNode) && app.world.physics == old(app.world.physics)
  {
    ghost var before := app.world.physics;
    assert before == (before - {PlayerBody}) + {PlayerBody};
    app.OnAction("ToggleMode", true);
    app.OnAction("ToggleMode", true);
    assert app.world.physics == (app.world.physics - {PlayerBody}) + {PlayerBody};
  }
}
