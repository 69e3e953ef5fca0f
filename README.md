# Wall editor and walk mode, modelled in Dafny

This project models the core of a small jMonkeyEngine level editor. A player
draws walls on the ground plane by aiming a pick ray at it, then walks among
them. It covers three source files:

- `PROJECT.java` is a self-contained application. An F1/F2 "ToggleMode" press
  swaps an editor state and a game state. The editor state casts its pick ray
  through the screen centre, snaps the ground point to a wall endpoint or the
  grid, and commits walls. The game state walks a
  character with four keys.
- `EDITOR.java` is a stand-alone editor app state. It has the same gesture,
  with the pick ray through the cursor and an extra guard against rays
  pointing away from the ground. It stores
  the endpoints under "start"/"end" instead of "s"/"e".
- `STATE.java` is a stand-alone game app state. It has an explicit
  `isWalking` flag that governs the character collider's registration.

Positions are exact `real`s. Distances are compared squared:
- `d < 0.5` becomes `d² < 0.25`;
- `d > 0.1` becomes `d² > 0.01`.

The engine is reduced to a `Scene.World` object. It holds:
- the level node's children, as a `seq` of `Spatial` values;
- the physics space, as a ghost set of registered bodies;
- the fly-by camera's move speed;
- the camera location.

The pick ray is a parameter. So are the camera's flattened direction
vectors and the character's position reported by physics.

Modules:
- `Vectors`: vector arithmetic and squared length.
- `Scene`: scene values and the `World` class.
- `Snapping`: the ground-plane hit and Java's `Math.round`; grid snapping; the
  nearest-endpoint scan and its specification.
- `Walls`: the wall a commit attaches.
- `Motion`: the walk vector, the guarded normalisation and the eye-height
  offset.
- `Project`, `Editor`, `Walking`: one module per source file, holding that
  file's app-state classes.
- `Scenarios`: worked examples that start from `Project.App`'s initial state:
  a snap onto a stored point, a gesture over the empty level, a toggle away
  from an open gesture, and a walking key held across two toggles.

Behaviour that follows the code rather than a looser reading of it:
- Grid rounding is Java's `Math.round`, which is `floor(v + 1/2)`. A half
  rounds up, so -0.5 goes to 0, not to -1.
- A second "Draw" press while a gesture is open does not get ignored. It
  overwrites the start point.
- An endpoint snap returns the stored point itself, with whatever height it
  was stored at. Only the grid snap forces y to 0.
- `PROJECT.java`'s snap has no guard for a ray that meets the ground only
  behind its origin. It uses the negative ray parameter. In that case
  `EDITOR.java`'s `getMouseWorldPoint` returns the origin, and its
  `getSnappedPoint` then snaps that origin to an endpoint or the grid.
- For a ray parallel to the ground, `PROJECT.java` returns the ray's origin
  as the snapped point, unsnapped. `EDITOR.java`'s `getMouseWorldPoint` also
  returns the origin, but `getSnappedPoint` then snaps it.
- `PROJECT.java`'s editor `onDisable` detaches the preview line but keeps
  `currentLineGeom` pointing at it. `EDITOR.java` also sets it to null.
- `STATE.java` normalises only when the squared length is positive.
  `PROJECT.java` normalises unconditionally. jME's `normalizeLocal` leaves a
  zero vector unchanged, so both hand the character the same command.
- `EDITOR.java` scans a Geometry child that has "start" data and reads its
  "end" data without a null check. The model makes "every such child also has
  end data" a precondition of the scan (`Editor.AllPaired`). The editor
  state's `Valid` keeps it as an invariant, since its own walls always carry
  both.

## Model

| member | source | states |
|---|---|---|
| Snapping.PlaneHit | src/main/java/project/PROJECT.java:179-180 | for a non-parallel ray, origin + dir·(-origin.y/dir.y) lies on the plane y = 0 |
| Snapping.JavaRound | src/main/java/project/PROJECT.java:189 | Math.round(v) is the integer r with r - 1/2 <= v < r + 1/2 (halves round up) |
| Snapping.SnapToGrid | src/main/java/project/EDITOR.java:171-175 | y is 0; x and z are multiples of the grid size, at most half a cell above or less than half a cell below the input, so halves round up |
| Snapping.SnapToGridFixesGridPoints | src/main/java/project/EDITOR.java:171-175 | a point already on the grid keeps x and z and only loses its height |
| Snapping.SnapToGridIdempotent | src/main/java/project/EDITOR.java:171-175 | snapping a snapped point changes nothing |
| Snapping.Consider | src/main/java/project/PROJECT.java:185-186 | one scan step: the candidate replaces the best so far iff its squared distance is strictly smaller |
| Snapping.ScanInvariant | src/main/java/project/PROJECT.java:182-187 | after any prefix of the scan, either nothing is found and the threshold stands with no endpoint under it, or the first nearest endpoint under the threshold is held with its distance |
| Snapping.NearestEndpointSpec | src/main/java/project/PROJECT.java:182-188 | the scan finds nothing iff no endpoint is under 0.5, and otherwise finds the minimal-distance endpoint that no earlier endpoint ties |
| Snapping.FirstNearestUnique | src/main/java/project/EDITOR.java:189-198 | because updates use strict <, the first nearest endpoint is unique: ties go to the earliest scanned |
| Walls.WallSpatial | src/main/java/project/EDITOR.java:216-237 | the wall is a box Geometry storing exactly start and end under its two keys; its centre is the midpoint at height wallHeight/2, so it spans y from 0 to wallHeight; its half-thickness is wallThickness/2; its half-length squared is a quarter of the squared distance |
| Walls.WallBoxReachesEndpoints | src/main/java/project/PROJECT.java:193-199 | for points at one height, the box's half-length reaches from the centre exactly to each endpoint |
| Motion.AccumulateWalk | src/main/java/project/STATE.java:117-121 | adding camLeft, -camLeft, camDir and -camDir for the keys held yields the net sideways plus net forward vector |
| Motion.WalkIntentIsSignedSum | src/main/java/project/STATE.java:117-121 | the walk vector is (left-right)·camLeft + (up-down)·camDir, so opposite keys cancel |
| Motion.Command | src/main/java/project/PROJECT.java:263 | the character is told to stand, with the zero vector, exactly when the walk vector is zero; otherwise it heads along that vector at speed 8 |
| Motion.CommandFollowsLengthTest | src/main/java/project/STATE.java:123-126 | the length-squared > 0 test selects exactly the non-zero walk vectors |
| Motion.NormalizeIfMoving | src/main/java/project/STATE.java:123-126 | the guarded normalisation hands over the same command as the unguarded one |
| Motion.EyeFeetRoundTrip | src/main/java/project/STATE.java:92-93 | warping 1.6 below the camera and following 1.6 above the character are inverse, and change only the height |
| Project.SnapPointSpec | src/main/java/project/PROJECT.java:174-189 | a parallel ray (abs(dir.y) < 0.001) gives its origin; otherwise the first nearest stored endpoint under 0.5 wins, and without one the plane point is rounded to the grid |
| Project.SnappedPoint | src/main/java/project/PROJECT.java:174-190 | getSnappedPoint computes the snap point specified by SnapPoint |
| Project.NearestStoredEndpoint | src/main/java/project/PROJECT.java:182-187 | the loop over the level children yields the scan's answer over their "s" then "e" points, each when present |
| Project.ConsiderChild | src/main/java/project/PROJECT.java:184-186 | one child's step extends the scan by its present "s" and "e" points, in that order |
| Project.CommittedWallIsSnappable | src/main/java/project/PROJECT.java:201-205 | committing a wall adds exactly start then end to the endpoints later snaps scan; earlier endpoints are unchanged |
| Project.EditorState.constructor | src/main/java/project/PROJECT.java:96-104 | a new editor state has no gesture open, no line reference and no attached preview, and works on the given scene |
| Project.EditorState.OnEnable | src/main/java/project/PROJECT.java:129-136 | the fly-by camera's speed is 20 |
| Project.EditorState.OnDisable | src/main/java/project/PROJECT.java:139-145 | the gesture is dropped, no preview stays attached, no wall is committed, and the stale line reference is kept |
| Project.EditorState.Update | src/main/java/project/PROJECT.java:148-159 | with no gesture open nothing changes; with one open, the only attached preview is the line from the start to the current snap point |
| Project.EditorState.OnAction | src/main/java/project/PROJECT.java:162-172 | a press sets the start to the snap point; a release with a gesture open commits a wall iff the squared distance exceeds 0.01 and clears the gesture and preview either way; other events change nothing |
| Project.EditorState.CreateWall | src/main/java/project/PROJECT.java:192-205 | exactly one wall is appended to the level and its body registered |
| Project.GameState.constructor | src/main/java/project/PROJECT.java:210-214 | a new game state has all four walking flags false |
| Project.GameState.OnEnable | src/main/java/project/PROJECT.java:223-235 | the character is warped 1.6 below the camera and registered, and the fly-by camera stops |
| Project.GameState.OnDisable | src/main/java/project/PROJECT.java:238-244 | the character is unregistered and the fly-by speed is back to 20 |
| Project.GameState.OnAction | src/main/java/project/PROJECT.java:247-252 | exactly the named flag among L/R/U/D takes isPressed; other flags and other names are unchanged |
| Project.GameState.Update | src/main/java/project/PROJECT.java:255-265 | the character is handed the command for the held keys' walk vector, and the camera is 1.6 above the character |
| Project.ModeAfterParity | src/main/java/project/PROJECT.java:85-94 | after any event sequence, the mode has flipped iff an odd number of ToggleMode presses occurred |
| Project.App.constructor | src/main/java/project/PROJECT.java:45-73 | the game state starts attached with the character registered below the camera at (0, 5, 10), over an empty level and the floor body; the four walking flags start false; the scene and both states are new objects |
| Project.App.OnAction | src/main/java/project/PROJECT.java:85-95 | a ToggleMode press swaps the attached state; releases and other names change nothing; exactly one state stays attached, the character is registered iff the game state is, no other body is added or removed, the level and camera are untouched, entering play warps the character below the camera, entering edit leaves the editor state as it was, and the four walking flags and the last command survive every toggle |
| Project.App.EditorAction | src/main/java/project/PROJECT.java:162-172 | an editor event keeps the edit mode and the invariant; a Draw press sets the start to the snap point and leaves the level alone; a release with a gesture open commits a wall iff the squared distance exceeds 0.01 and clears the gesture and preview; other events change nothing |
| Project.App.GameAction | src/main/java/project/PROJECT.java:247-252 | a walking key event keeps the play mode; exactly the named flag among L/R/U/D takes isPressed, and nothing else changes |
| Project.App.Update | src/main/java/project/PROJECT.java:148-159 | each frame only the attached state updates; the mode, the level and the registered bodies are unchanged; in edit an open gesture's only preview is the line to the current snap point; in play the character gets the held keys' command and the camera follows it, while the flags and the last warp position are kept |
| Project.RunEvents | src/main/java/project/PROJECT.java:85-95 | delivering any sequence of events to the toggle listener ends in the mode ModeAfter gives, with exactly one state attached and the level untouched |
| Scenarios.KeyHeldAcrossToggles | src/main/java/project/PROJECT.java:238-244 | a walking key held when play is left is still held when it resumes, with the same last command, bodies and level |
| Scenarios.EmptyLevelSnapsToGrid | src/main/java/project/PROJECT.java:174-190 | over an empty level a ray straight down from (0, 5, 0) snaps to the origin |
| Scenarios.EmptyLevelSnapsDown | src/main/java/project/PROJECT.java:174-190 | over an empty level a ray straight down snaps to the grid point nearest below its origin |
| Scenarios.SnapsToStartOfOnlyWall | src/main/java/project/PROJECT.java:182-190 | with one wall stored, a hit under 0.5 from its start and no nearer its end snaps onto the start |
| Scenarios.HitNearStoredPointSnapsToIt | src/main/java/project/PROJECT.java:182-190 | a hit at (3.2, 0, 4.1) snaps onto the stored point (3, 0, 4) |
| Scenarios.EnterEdit | src/main/java/project/PROJECT.java:85-95 | the first toggle from the initial state enters edit with an empty level, only the floor body and no gesture |
| Scenarios.DrawOverEmptyLevel | src/main/java/project/PROJECT.java:162-205 | a press and release over the empty level commit the wall between the two grid points exactly when they are more than 0.1 apart |
| Scenarios.ToggleAwayFromOpenGesture | src/main/java/project/PROJECT.java:139-145 | toggling back to play with a gesture open and its preview shown leaves the level empty, no preview attached and the character registered again |
| Editor.UnscannedChildIgnored | src/main/java/project/EDITOR.java:184 | a child that is not a Geometry, or has no "start" data, adds no endpoint |
| Editor.MouseWorldPoint | src/main/java/project/EDITOR.java:158-169 | a parallel ray, or one meeting the plane only behind its origin, gives the origin; otherwise the point where the ray meets y = 0 |
| Editor.GroundAheadIffHeadingDown | src/main/java/project/EDITOR.java:166-167 | the plane is met at t >= 0 exactly when the origin is on the plane or the ray points toward it |
| Editor.SnapToNearestEdge | src/main/java/project/EDITOR.java:177-202 | the loop yields the scan's answer over every scanned child's "start" then "end" point |
| Editor.ConsiderChild | src/main/java/project/EDITOR.java:184-199 | one child's step extends the scan by its two points when scanned, and by nothing otherwise |
| Editor.SnapPointSpec | src/main/java/project/EDITOR.java:149-156 | the edge snap is preferred whenever an endpoint is under 0.5; only without one is the point rounded to the grid, with y = 0 |
| Editor.GetSnappedPoint | src/main/java/project/EDITOR.java:149-156 | getSnappedPoint computes the snap point specified by SnapPoint |
| Editor.CommittedWallIsSnappable | src/main/java/project/EDITOR.java:236-244 | a committed wall is scanned, keeps every child paired, and adds exactly start then end to later snaps |
| Editor.DrawState.constructor | src/main/java/project/EDITOR.java:31-49 | the editor works on the given level node and physics space, with no gesture open and no preview; its invariant holds iff every scanned child of that level carries both points |
| Editor.DrawState.OnEnable | src/main/java/project/EDITOR.java:102-108 | the fly-by camera's speed is 20 |
| Editor.DrawState.OnDisable | src/main/java/project/EDITOR.java:110-118 | the gesture, the preview and its reference are all cleared, and no wall is committed |
| Editor.DrawState.Update | src/main/java/project/EDITOR.java:120-126 | with no gesture open nothing changes; with one open, the only preview is the line from the start to the current snap point |
| Editor.DrawState.UpdateVisualLine | src/main/java/project/EDITOR.java:204-214 | the old preview is replaced, so exactly one preview line, from start to end, is attached |
| Editor.DrawState.OnAction | src/main/java/project/EDITOR.java:128-147 | a press sets the start to the snap point; a release with a gesture open commits a wall iff the squared distance exceeds 0.01 and clears the gesture and preview either way; other events change nothing |
| Editor.DrawState.CreateWall | src/main/java/project/EDITOR.java:216-245 | exactly one wall is appended and its body registered, and every scanned child stays paired |
| Walking.WalkState.constructor | src/main/java/project/STATE.java:25-33 | a new game state is not walking, has all four flags false and a zero walk direction; its invariant holds iff the character is not registered |
| Walking.WalkState.SetWalking | src/main/java/project/STATE.java:87-102 | afterwards isWalking is the argument and the character is registered iff walking; walking warps it 1.6 below the camera and stops the fly-by camera, and stopping restores speed 20 |
| Walking.WalkState.OnEnable | src/main/java/project/STATE.java:68-77 | enabling starts walking |
| Walking.WalkState.OnDisable | src/main/java/project/STATE.java:79-85 | afterwards the character is not walking and not registered; the physics space and camera speed change only if it was walking, and the last warp position is kept |
| Walking.WalkState.OnAction | src/main/java/project/STATE.java:104-110 | exactly the named flag among WalkLeft/WalkRight/WalkUp/WalkDown takes isPressed; other flags and other names are unchanged |
| Walking.WalkState.Update | src/main/java/project/STATE.java:112-130 | nothing changes while not walking; while walking the character gets the command for the held keys and the camera follows 1.6 above it |

## Left out

- Rendering and scene setup are not modelled. This covers the grid lines,
  materials, wall colours, the crosshair, the floor geometry, window settings
  and `main`. Attaching the editor node and the player node to the root is
  also left out. Only the preview line's attachment under the editor node is
  kept, as a set of lines.
- Input mappings and listener registration are not modelled. Events arrive
  as method calls. In `Project.App`, "this state is attached" is the
  precondition for delivering its events.
- The cursor visibility and the fly-by camera's enabled and drag-to-rotate
  flags are not modelled. Only the move speed is.
- jME defers attach and detach to the next frame. Those steps are collapsed
  into immediate onDisable and onEnable calls, in that order.
  `Project.App.constructor` states the situation after that first frame, so
  the camera is already placed and its speed set.
  `Project.App.OnAction` assumes at most one toggle per frame.
- The fly-by camera's own movement in edit mode is not modelled: the WASD
  keys at speed 20 and mouse look. `Project.App.Update` keeps the camera
  fixed while editing, so only a direct write to the scene moves it.
- Camera projection (`getWorldCoordinates`) and the flattening and
  normalising of the camera's direction vectors are left out. The ray and the
  vectors are parameters.
- The Bullet physics simulation is left out. The character's reported
  position is a parameter, and bodies are only registered and removed.
- Motion.Command: the normalisation and scaling by 8 are kept symbolic as
  `Heading(raw, 8)`, because they need a square root.
- Walls.WallSpatial: the rotation by -atan2 about the up axis is not
  modelled, because it is transcendental. The half-length is kept squared,
  because its square root is not modelled.
- Snapping.SnapToGrid: fixed at the source's constant grid size 1.0. A
  general grid size is not modelled.
- Snapping.JavaRound: Math.round's clamping to the int range is not
  modelled. Exact reals replace float rounding throughout.
- A Geometry child in `EDITOR.java` with "start" but no "end" data would
  make the scan dereference null. The model rules this case out by
  precondition and does not model the exception.
