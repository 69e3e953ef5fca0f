/**
 * The single-file editor application: the mode toggle between an editor state
 * and a game state, the editor's draw gesture with endpoint and grid snapping,
 * and the game state's walking keys.
 */
module Project {
  import opened Wrappers
  import opened Vectors
  import opened Scene
  import opened Snapping
  import opened Walls
  import opened Motion

  /** The user-data keys under which this editor stores a wall's two points. */
  const StartKey: string := "s"
  const EndKey: string := "e"
  /** A wall is committed only for distance > 0.1, that is squared distance > 0.01. */
  const MinWallLengthSq: real := 0.01
  /** The fly-by camera's move speed whenever the character is not walking. */
  const FreeFlySpeed: real := 20.0

  /** The stored endpoints of one level child, "s" before "e", each only when present. */
  function ChildEndpoints(c: Spatial): seq<Vec3> {
    (if StartKey in c.userData then [c.userData[StartKey]] else [])
    + (if EndKey in c.userData then [c.userData[EndKey]] else [])
  }

  /** The stored endpoints of the level children in scan order. */
  function Endpoints(children: seq<Spatial>): seq<Vec3>
    decreases |children|
  {
    if |children| == 0 then []
    else Endpoints(children[..|children| - 1]) + ChildEndpoints(children[|children| - 1])
  }

  lemma EndpointsAppend(children: seq<Spatial>, c: Spatial)
    ensures Endpoints(children + [c]) == Endpoints(children) + ChildEndpoints(c)
  {
    assert (children + [c])[..|children|] == children;
  }

  /**
   * getSnappedPoint for a given pick ray: a ray parallel to the ground gives its
   * origin untouched; otherwise the ray meets y = 0 (even behind the origin) and
   * the point snaps to the first nearest stored endpoint under 0.5, or else to the grid.
   */
  function SnapPoint(children: seq<Spatial>, ray: Ray): Vec3 {
    if Parallel(ray) then ray.origin
    else match NearestEndpoint(Endpoints(children), PlaneHit(ray))
      case Some(q) => q
      case None => SnapToGrid(PlaneHit(ray))
  }

  /** What getSnappedPoint returns, by case. */
  lemma SnapPointSpec(children: seq<Spatial>, ray: Ray)
    ensures Parallel(ray) ==> SnapPoint(children, ray) == ray.origin
    ensures !Parallel(ray) ==>
      var pts, pos := Endpoints(children), PlaneHit(ray);
      (exists j :: 0 <= j < |pts| && DistSq(pos, pts[j]) < SnapThresholdSq) ==>
        exists k :: IsFirstNearest(pts, pos, k) && SnapPoint(children, ray) == pts[k]
    ensures !Parallel(ray) ==>
      var pts, pos := Endpoints(children), PlaneHit(ray);
      (forall j :: 0 <= j < |pts| ==> DistSq(pos, pts[j]) >= SnapThresholdSq) ==>
        SnapPoint(children, ray) == SnapToGrid(pos)
  {
    if !Parallel(ray) {
      NearestEndpointSpec(Endpoints(children), PlaneHit(ray));
    }
  }

  /** getSnappedPoint: the plane intersection, then the endpoint scan over the level children. */
  method SnappedPoint(children: seq<Spatial>, ray: Ray) returns (p: Vec3)
    ensures p == SnapPoint(children, ray)
  {
    var origin, dir := ray.origin, ray.dir;
    if Abs(dir.y) < ParallelEpsilon {
      return origin;
    }
    var t := -origin.y / dir.y;
    var pos := Add(origin, Scale(dir, t));
    assert pos == PlaneHit(ray);
    var nearest := NearestStoredEndpoint(children, pos);
    if nearest.Some? {
      return nearest.value;
    }
    return SnapToGrid(pos);
  }

  /**
   * The loop of getSnappedPoint: every child's "s" then "e" point, when present,
   * becomes the candidate if it is strictly closer than the best so far, which
   * starts at the threshold.
   */
  method NearestStoredEndpoint(children: seq<Spatial>, pos: Vec3) returns (nearest: Option<Vec3>)
    ensures nearest == NearestEndpoint(Endpoints(children), pos)
  {
    nearest := None;
    var minDistSq := SnapThresholdSq;
    var i := 0;
    while i < |children|
      invariant 0 <= i <= |children|
      invariant Scan(Endpoints(children[..i]), pos) == ScanState(minDistSq, nearest)
    {
      var c := children[i];
      minDistSq, nearest := ConsiderChild(Endpoints(children[..i]), minDistSq, nearest, pos, c);
      assert children[..i + 1] == children[..i] + [c];
      EndpointsAppend(children[..i], c);
      i := i + 1;
    }
    assert children[..|children|] == children;
  }

  /** The body of the scan loop for one child: its "s" point, then its "e" point, when present. */
  method ConsiderChild(ghost seen: seq<Vec3>, minDistSq: real, nearest: Option<Vec3>, pos: Vec3, c: Spatial)
    returns (minDistSq': real, nearest': Option<Vec3>)
    requires Scan(seen, pos) == ScanState(minDistSq, nearest)
    ensures Scan(seen + ChildEndpoints(c), pos) == ScanState(minDistSq', nearest')
  {
    minDistSq', nearest' := minDistSq, nearest;
    ghost var done := seen;
    if StartKey in c.userData {
      var s1 := c.userData[StartKey];
      ScanAppend(done, s1, pos);
      minDistSq', nearest' := Consider(minDistSq', nearest', pos, s1);
      done := done + [s1];
    }
    if EndKey in c.userData {
      var s2 := c.userData[EndKey];
      ScanAppend(done, s2, pos);
      minDistSq', nearest' := Consider(minDistSq', nearest', pos, s2);
      done := done + [s2];
    }
    assert done == seen + ChildEndpoints(c);
  }

  /** The wall this editor's createWall attaches for start and end. */
  function Wall(start: Vec3, end: Vec3): Spatial {
    WallSpatial(start, end, StartKey, EndKey)
  }

  /** A committed wall adds exactly its two points, start first, to what later snaps scan. */
  lemma CommittedWallIsSnappable(children: seq<Spatial>, start: Vec3, end: Vec3)
    ensures Endpoints(children + [Wall(start, end)]) == Endpoints(children) + [start, end]
  {
    EndpointsAppend(children, Wall(start, end));
  }

  /** The editor state: the open gesture's start point and the preview line. */
  class EditorState {
    const world: World
    /** The snapped point where the open gesture began; None when no gesture is open. */
    var startPoint: Option<Vec3>
    /** The reference to the last preview line created. */
    var currentLineGeom: Option<Line>
    /** The preview lines attached under the editor node. */
    var previews: set<Line>

    /** Only the referenced preview line can be attached, so at most one preview is shown. */
    ghost predicate Valid()
      reads this
    {
      previews <= Referenced(currentLineGeom)
    }

    constructor (world: World)
      ensures this.world == world && Valid()
      ensures startPoint == None && currentLineGeom == None && previews == {}
    {
      this.world := world;
      startPoint := None;
      currentLineGeom := None;
      previews := {};
    }

    method OnEnable()
      modifies world`flySpeed
      ensures world.flySpeed == FreeFlySpeed
    {
      world.flySpeed := FreeFlySpeed;
    }

    /** Drops the open gesture without a wall; the preview is detached but still referenced. */
    method OnDisable()
      requires Valid()
      modifies this
      ensures Valid() && startPoint == None && previews == {}
      ensures currentLineGeom == old(currentLineGeom)
    {
      if currentLineGeom.Some? {
        previews := previews - {currentLineGeom.value};
      }
      startPoint := None;
    }

    /** While a gesture is open, replaces the preview by a line from the start to the snapped point. */
    method Update(ray: Ray)
      requires Valid()
      modifies this
      ensures Valid() && startPoint == old(startPoint)
      ensures old(startPoint).None? ==> currentLineGeom == old(currentLineGeom) && previews == old(previews)
      ensures old(startPoint).Some? ==>
        currentLineGeom == Some(Line(old(startPoint).value, SnapPoint(world.levelNode, ray)))
        && previews == {currentLineGeom.value}
    {
      if startPoint.Some? {
        var end := SnappedPoint(world.levelNode, ray);
        if currentLineGeom.Some? {
          previews := previews - {currentLineGeom.value};
        }
        var line := Line(startPoint.value, end);
        currentLineGeom := Some(line);
        previews := previews + {line};
      }
    }

    /**
     * "Draw" pressed: the gesture starts at the snapped point, replacing any open one.
     * "Draw" released with a gesture open: a wall is committed iff the squared distance
     * exceeds 0.01, and the gesture and its preview are cleared in both cases.
     */
    method OnAction(name: string, isPressed: bool, ray: Ray)
      requires Valid()
      modifies this, world`levelNode, world`physics
      ensures Valid()
      ensures name != "Draw" || (!isPressed && old(startPoint).None?) ==>
        unchanged(this) && world.levelNode == old(world.levelNode) && world.physics == old(world.physics)
      ensures name == "Draw" && isPressed ==>
        startPoint == Some(SnapPoint(old(world.levelNode), ray))
        && currentLineGeom == old(currentLineGeom) && previews == old(previews)
        && world.levelNode == old(world.levelNode) && world.physics == old(world.physics)
      ensures name == "Draw" && !isPressed && old(startPoint).Some? ==>
        var s, e := old(startPoint).value, SnapPoint(old(world.levelNode), ray);
        startPoint == None && currentLineGeom == None && previews == {}
        && (DistSq(s, e) > MinWallLengthSq ==>
              world.levelNode == old(world.levelNode) + [Wall(s, e)]
              && world.physics == old(world.physics) + {WallBody(|old(world.levelNode)|)})
        && (DistSq(s, e) <= MinWallLengthSq ==>
              world.levelNode == old(world.levelNode) && world.physics == old(world.physics))
    {
      if name == "Draw" {
        if isPressed {
          var p := SnappedPoint(world.levelNode, ray);
          startPoint := Some(p);
        } else if startPoint.Some? {
          var end := SnappedPoint(world.levelNode, ray);
          if DistSq(startPoint.value, end) > MinWallLengthSq {
            CreateWall(startPoint.value, end);
          }
          startPoint := None;
          if currentLineGeom.Some? {
            previews := previews - {currentLineGeom.value};
            currentLineGeom := None;
          }
        }
      }
    }

    /** Registers the wall's static body and appends the wall as the level's last child. */
    method CreateWall(start: Vec3, end: Vec3)
      modifies world`levelNode, world`physics
      ensures world.levelNode == old(world.levelNode) + [Wall(start, end)]
      ensures world.physics == old(world.physics) + {WallBody(|old(world.levelNode)|)}
    {
      world.physics := world.physics + {WallBody(|world.levelNode|)};
      world.levelNode := world.levelNode + [Wall(start, end)];
    }
  }

  /** The game state: the four walking key flags and the character control. */
  class GameState {
    const world: World
    var left: bool
    var right: bool
    var up: bool
    var down: bool
    /** Where the character control was last warped to. */
    var playerFeet: Vec3
    /** The walk direction last handed to the character control. */
    var playerWalk: WalkCommand

    constructor (world: World)
      ensures this.world == world
      ensures !left && !right && !up && !down
      ensures playerFeet == Zero && playerWalk == Stand(Zero)
    {
      this.world := world;
      left, right, up, down := false, false, false, false;
      playerFeet := Zero;
      playerWalk := Stand(Zero);
    }

    /** Warps the character 1.6 below the camera, registers it and stops the fly-by camera. */
    method OnEnable()
      modifies this`playerFeet, world`physics, world`flySpeed
      ensures playerFeet == FeetBelow(world.camLocation)
      ensures world.physics == old(world.physics) + {PlayerBody}
      ensures world.flySpeed == 0.0
    {
      playerFeet := FeetBelow(world.camLocation);
      world.physics := world.physics + {PlayerBody};
      world.flySpeed := 0.0;
    }

    /** Unregisters the character and restores the fly-by camera's speed; the key flags stay. */
    method OnDisable()
      modifies world`physics, world`flySpeed
      ensures world.physics == old(world.physics) - {PlayerBody}
      ensures world.flySpeed == FreeFlySpeed
    {
      world.physics := world.physics - {PlayerBody};
      world.flySpeed := FreeFlySpeed;
    }

    /** Sets exactly the flag the action names to isPressed; other names change nothing. */
    method OnAction(name: string, isPressed: bool)
      modifies this`left, this`right, this`up, this`down
      ensures left == (if name == "L" then isPressed else old(left))
      ensures right == (if name == "R" then isPressed else old(right))
      ensures up == (if name == "U" then isPressed else old(up))
      ensures down == (if name == "D" then isPressed else old(down))
    {
      if name == "L" {
        left := isPressed;
      } else if name == "R" {
        right := isPressed;
      } else if name == "U" {
        up := isPressed;
      } else if name == "D" {
        down := isPressed;
      }
    }

    /**
     * Hands the character the walk vector for the held keys, normalised and scaled
     * to 8 unless it is zero, and puts the camera 1.6 above the character's position.
     * camDir and camLeft are the camera's facing and left vectors flattened to y = 0
     * and normalised; playerPos is the position the physics space reports.
     */
    method Update(camDir: Vec3, camLeft: Vec3, playerPos: Vec3)
      modifies this`playerWalk, world`camLocation
      ensures playerWalk == Command(WalkIntent(left, right, up, down, camLeft, camDir))
      ensures world.camLocation == EyeAbove(playerPos)
    {
      var walk := AccumulateWalk(left, right, up, down, camLeft, camDir);
      playerWalk := Command(walk);
      world.camLocation := EyeAbove(playerPos);
    }
  }

  /** Which of the two states is attached. */
  datatype Mode = Edit | Play

  function Flip(m: Mode): Mode {
    if m == Edit then Play else Edit
  }

  datatype InputEvent = InputEvent(name: string, isPressed: bool)

  /** Only a press of "ToggleMode" switches modes. */
  predicate IsToggle(e: InputEvent) {
    e.name == "ToggleMode" && e.isPressed
  }

  /** The mode after a sequence of input events. */
  function ModeAfter(m: Mode, events: seq<InputEvent>): Mode
    decreases |events|
  {
    if |events| == 0 then m
    else
      var before := ModeAfter(m, events[..|events| - 1]);
      if IsToggle(events[|events| - 1]) then Flip(before) else before
  }

  function TogglePresses(events: seq<InputEvent>): nat
    decreases |events|
  {
    if |events| == 0 then 0
    else TogglePresses(events[..|events| - 1]) + (if IsToggle(events[|events| - 1]) then 1 else 0)
  }

  /** After any events, the mode has flipped once per toggle press: it depends only on their parity. */
  lemma {:induction false} ModeAfterParity(m: Mode, events: seq<InputEvent>)
    ensures ModeAfter(m, events) == if TogglePresses(events) % 2 == 0 then m else Flip(m)
    decreases |events|
  {
    if |events| > 0 {
      ModeAfterParity(m, events[..|events| - 1]);
    }
  }

  /** The application: the shared scene plus the two states, exactly one of them attached. */
  class App {
    const world: World
    const editorState: EditorState
    const gameState: GameState
    var editorAttached: bool
    var gameAttached: bool

    ghost predicate Valid()
      reads this, world, editorState, gameState
    {
      editorState.world == world && gameState.world == world
      && editorAttached != gameAttached
      && (PlayerBody in world.physics <==> gameAttached)
      && world.flySpeed == (if gameAttached then 0.0 else FreeFlySpeed)
      && editorState.Valid()
      && (gameAttached ==> editorState.startPoint.None? && editorState.previews == {})
    }

    function CurrentMode(): Mode
      reads this
    {
      if editorAttached then Edit else Play
    }

    /** simpleInitApp: an empty level over the floor body, the camera at (0, 5, 10), the game state attached. */
    constructor ()
      ensures Valid() && CurrentMode() == Play
      ensures world.levelNode == [] && world.physics == {FloorBody, PlayerBody}
      ensures world.camLocation == Vec3(0.0, 5.0, 10.0)
      ensures gameState.playerFeet == FeetBelow(world.camLocation)
      ensures !gameState.left && !gameState.right && !gameState.up && !gameState.down
      ensures fresh(world) && fresh(editorState) && fresh(gameState)
    {
      var w := new World([], {FloorBody}, FreeFlySpeed, Vec3(0.0, 5.0, 10.0));
      var editor := new EditorState(w);
      var game := new GameState(w);
      game.OnEnable();
      world, editorState, gameState := w, editor, game;
      editorAttached, gameAttached := false, true;
    }

    /** The "ToggleMode" listener: a press detaches the attached state and attaches the other. */
    method OnAction(name: string, isPressed: bool)
      requires Valid()
      modifies this, world, editorState, gameState
      ensures Valid()
      ensures CurrentMode() == if IsToggle(InputEvent(name, isPressed)) then Flip(old(CurrentMode())) else old(CurrentMode())
      ensures world.levelNode == old(world.levelNode)
      ensures world.physics - {PlayerBody} == old(world.physics) - {PlayerBody}
      ensures world.camLocation == old(world.camLocation)
      ensures old(CurrentMode()) == Edit && CurrentMode() == Play ==>
        gameState.playerFeet == FeetBelow(world.camLocation)
      ensures old(CurrentMode()) == Play && CurrentMode() == Edit ==> unchanged(editorState)
      ensures gameState.left == old(gameState.left) && gameState.right == old(gameState.right)
      ensures gameState.up == old(gameState.up) && gameState.down == old(gameState.down)
      ensures gameState.playerWalk == old(gameState.playerWalk)
      ensures !IsToggle(InputEvent(name, isPressed)) ==> unchanged(this, world, editorState, gameState)
    {
      if name == "ToggleMode" && isPressed {
        if editorAttached {
          editorState.OnDisable();
          editorAttached := false;
          gameAttached := true;
          gameState.OnEnable();
        } else {
          gameState.OnDisable();
          gameAttached := false;
          editorAttached := true;
          editorState.OnEnable();
        }
      }
    }

    /** A "Draw" event, delivered only while the editor state is attached and listening. */
    method EditorAction(name: string, isPressed: bool, ray: Ray)
      requires Valid() && editorAttached
      modifies world, editorState
      ensures Valid() && CurrentMode() == Edit
      ensures unchanged(gameState)
      ensures world.camLocation == old(world.camLocation) && world.flySpeed == old(world.flySpeed)
      ensures name != "Draw" || (!isPressed && old(editorState.startPoint).None?) ==>
        unchanged(editorState) && world.levelNode == old(world.levelNode) && world.physics == old(world.physics)
      ensures name == "Draw" && isPressed ==>
        editorState.startPoint == Some(SnapPoint(old(world.levelNode), ray))
        && editorState.currentLineGeom == old(editorState.currentLineGeom)
        && editorState.previews == old(editorState.previews)
        && world.levelNode == old(world.levelNode) && world.physics == old(world.physics)
      ensures name == "Draw" && !isPressed && old(editorState.startPoint).Some? ==>
        var s, e := old(editorState.startPoint).value, SnapPoint(old(world.levelNode), ray);
        editorState.startPoint == None && editorState.currentLineGeom == None && editorState.previews == {}
        && (DistSq(s, e) > MinWallLengthSq ==>
              world.levelNode == old(world.levelNode) + [Wall(s, e)]
              && world.physics == old(world.physics) + {WallBody(|old(world.levelNode)|)})
        && (DistSq(s, e) <= MinWallLengthSq ==>
              world.levelNode == old(world.levelNode) && world.physics == old(world.physics))
    {
      editorState.OnAction(name, isPressed, ray);
    }

    /** A walking key event, delivered only while the game state is attached and listening. */
    method GameAction(name: string, isPressed: bool)
      requires Valid() && gameAttached
      modifies gameState
      ensures Valid() && CurrentMode() == Play
      ensures unchanged(world, editorState)
      ensures gameState.left == (if name == "L" then isPressed else old(gameState.left))
      ensures gameState.right == (if name == "R" then isPressed else old(gameState.right))
      ensures gameState.up == (if name == "U" then isPressed else old(gameState.up))
      ensures gameState.down == (if name == "D" then isPressed else old(gameState.down))
      ensures gameState.playerFeet == old(gameState.playerFeet) && gameState.playerWalk == old(gameState.playerWalk)
    {
      gameState.OnAction(name, isPressed);
    }

    /** One frame: only the attached state updates. */
    method Update(ray: Ray, camDir: Vec3, camLeft: Vec3, playerPos: Vec3)
      requires Valid()
      modifies world, editorState, gameState
      ensures Valid() && CurrentMode() == old(CurrentMode())
      ensures world.levelNode == old(world.levelNode) && world.physics == old(world.physics)
      ensures editorAttached ==>
        && unchanged(world, gameState)
        && editorState.startPoint == old(editorState.startPoint)
        && (old(editorState.startPoint).None? ==>
              editorState.currentLineGeom == old(editorState.currentLineGeom)
              && editorState.previews == old(editorState.previews))
        && (old(editorState.startPoint).Some? ==>
              editorState.currentLineGeom == Some(Line(old(editorState.startPoint).value, SnapPoint(world.levelNode, ray)))
              && editorState.previews == {editorState.currentLineGeom.value})
      ensures gameAttached ==>
        && unchanged(editorState)
        && world.camLocation == EyeAbove(playerPos)
        && gameState.left == old(gameState.left) && gameState.right == old(gameState.right)
        && gameState.up == old(gameState.up) && gameState.down == old(gameState.down)
        && gameState.playerFeet == old(gameState.playerFeet)
        && gameState.playerWalk == Command(WalkIntent(gameState.left, gameState.right, gameState.up, gameState.down, camLeft, camDir))
    {
      if editorAttached {
        editorState.Update(ray);
      } else {
        gameState.Update(camDir, camLeft, playerPos);
      }
    }
  }

  /** Delivers a sequence of input events to the "ToggleMode" listener, one after another. */
  method RunEvents(app: App, events: seq<InputEvent>)
    requires app.Valid()
    modifies app, app.world, app.editorState, app.gameState
    ensures app.Valid() && app.CurrentMode() == ModeAfter(old(app.CurrentMode()), events)
    ensures app.world.levelNode == old(app.world.levelNode)
  {
    ghost var m0 := app.CurrentMode();
    var i := 0;
    while i < |events|
      invariant 0 <= i <= |events|
      invariant app.Valid() && app.CurrentMode() == ModeAfter(m0, events[..i])
      invariant app.world.levelNode == old(app.world.levelNode)
    {
      app.OnAction(events[i].name, events[i].isPressed);
      assert events[..i + 1][..i] == events[..i];
      i := i + 1;
    }
    assert events[..|events|] == events;
  }
}
