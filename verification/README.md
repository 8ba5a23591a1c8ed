# Voxel world: scene, input and camera model

A Dafny model of the logic underneath a small WebGL voxel world: a 32×32
height map of stacked unit cubes (`blockGrid`), the ordered cube placements
each frame draws (ground, sky, the blocks, a five-cube frog), the one-shot
"frog found" latch, the keyboard and mouse handlers, and the first-person
camera's pose updates.

Modules:

- `Basics` — `Option`, `Result`, `Min`/`Max`/`Abs`.
- `Vectors` — `Vec3` over `real` and `VectorLib`, the matrix library's
  operations (`normalize`, `cross`, rotation about an axis, look-at,
  perspective) carried as function-valued fields. They are left
  uninterpreted, so every camera fact holds for any library.
- `Cameras` (`camera.js`) — the `Camera` record with its constructor, moves,
  pans and the grid probe `getGridCoordsInFront`.
- `VoxelGrid` (`World.js`, grid part) — the grid, its random start-up
  contents, and the click edit (increment and decrement).
- `Scene` (`renderScene`, `drawFrog`) — the placements one frame draws.
- `Controller` (`World.js` handlers) — the session state `World`, the
  handlers as pure steps, and invariants over any sequence of events.

Behaviour worth knowing:

- **Clicks never edit the grid.** The click handler only proceeds if the
  camera has a method named `getFocusedGrid`. `Camera` has no such method; its
  probe is called `getGridCoordsInFront`. So the handler always returns
  early. `Controller.ManageMouseClick` models the handler with this guard,
  for any method table. `Controller.ClickIsNoOp` shows it is a no-op for
  `Camera`'s table. `Controller.RunInvariants` shows the height map never
  changes during a session.
- **Only the column is bounds-checked on increment.** With an existing column
  and a row outside [0, 32), the increment writes not-a-number into a slot the
  renderer never reads. `VoxelGrid.Increment` returns that slot as a `stray`
  cell and leaves the visible grid unchanged.
- **The mouse baseline is never cleared.** Every move with a camera records
  the new `clientX` in `lastX`, but nothing ever sets it back to null
  (World.js:201-210). Once set, it stays set.
- **The constructor does not check the aspect ratio.** It is a parameter here.
- **A key press before the camera exists throws.** The handler dereferences the
  undefined camera. `HandleKey` returns `Err`, and the session keeps its state.
- **The latch fires at most once.** It fires only if the camera ever comes
  near the frog.

## Model

| member | source | states |
|---|---|---|
| `Cameras.NewCamera` | camera.js:2-11 | initial pose: eye (0,1,5), up (0,1,0), fov 60, looking one unit down -z; projection built once from fov, aspect, 0.1 and 1000; view matrix current |
| `Cameras.UpdateView` | camera.js:14-20 | afterwards the view matrix is the look-at of the current eye, at and up; pose unchanged |
| `Cameras.MoveForward` | camera.js:23-28 | eye and at both move by the same vector, speed·normalize(at−eye); up, fov and projection unchanged; view current |
| `Cameras.MoveBackward` | camera.js:31-36 | eye and at both move by speed·normalize(eye−at); up, fov, projection unchanged; view current |
| `Cameras.MoveLeft` | camera.js:39-45 | eye and at both move by speed·normalize(cross(up, f)); up, fov, projection unchanged; view current |
| `Cameras.MoveRight` | camera.js:48-54 | eye and at both move by speed·normalize(cross(f, up)), the cross arguments swapped; up, fov, projection unchanged; view current |
| `Cameras.RotateAroundUp` | camera.js:67-74 | eye unchanged; the new look vector at−eye is the old one rotated by the angle about up; up, fov, projection unchanged; view current |
| `Cameras.PanLeft` | camera.js:57-59 | panning left by a is rotating about up by a |
| `Cameras.PanRight` | camera.js:62-64 | panning right by a is rotating about up by −a |
| `Cameras.GridCoordsInFront` | camera.js:77-84 | the cell is the floor of x and of z of eye + normalize(at−eye) + (16,0,16); y plays no part |
| `Cameras.MoveBackwardIsNegatedForward` | camera.js:23-36 | if normalize is odd on the look vector, moving backward equals moving forward by the negated speed |
| `Cameras.MoveRightIsNegatedLeft` | camera.js:39-54 | if cross is anti-commutative and normalize odd there, strafing right equals strafing left by the negated speed: the argument order alone sets the direction |
| `Cameras.PanRightIsNegatedPanLeft` | camera.js:57-64 | panRight(a) and panLeft(−a) give the same camera |
| `Cameras.InitialProbeCell` | camera.js:77-84 | from the initial pose the probe picks cell (16, 20), given only that normalize leaves (0,0,−1) unchanged |
| `Cameras.NoFocusedGridMethod` | camera.js:1-85 | the camera's methods include getGridCoordsInFront but not getFocusedGrid |
| `VoxelGrid.InitGrid` | World.js:110-112 | the start-up grid is 32×32, and each height is the floor of 5·sample, hence an integer in [0,4] |
| `VoxelGrid.InitGridReachesEveryGrid` | World.js:110-112 | every valid grid can come out of some random samples |
| `VoxelGrid.Decrement` | World.js:215-216 | in range: the height becomes max(0, h−1); out of range in column or row: no change; no other cell changes |
| `VoxelGrid.Increment` | World.js:217-218 | in range: the height becomes min(4, h+1), at most 4 and no change at 4; bad column: no change; good column, bad row: visible grid unchanged, stray write at (col,row) reported |
| `VoxelGrid.ClickEdit` | World.js:215-219 | shift decrements and any other click increments; at most cell (col,row) changes and heights stay in [0,4] |
| `VoxelGrid.DecrementUndoesIncrement` | World.js:215-218 | below the ceiling, decrement after increment restores the grid |
| `VoxelGrid.IncrementUndoesDecrement` | World.js:215-218 | above the floor, increment after decrement restores the grid |
| `VoxelGrid.IncrementTimesSaturates` | World.js:218 | n increments give min(4, h+n) and touch no other cell |
| `VoxelGrid.DecrementTimesFloors` | World.js:216 | n decrements give max(0, h−n) and touch no other cell |
| `VoxelGrid.IncrementPastCeiling` | World.js:218 | from an empty cell, 4+5 increments leave exactly 4 |
| `VoxelGrid.DecrementToFloor` | World.js:216 | at least h decrements empty a cell of height h, never below 0 |
| `Scene.Shade` | World.js:29-37 | selector −2 paints the flat colour, 0 the first sampler, 1 the second, and exactly every other selector falls back to magenta |
| `Scene.RenderScene` | World.js:114-144 | a frame is the ground, then the sky, then one block cube per unit of height, then the frog's five cubes: 2 + (sum of all heights) + 5 placements |
| `Scene.BlockKeysExact` | World.js:130-140 | the blocks drawn are exactly the (col, row, level) with level below the height of cell (col, row), in strictly increasing column, then row, then level order, hence each once |
| `Scene.BlockCubesPlaced` | World.js:134-137 | the i-th block cube is a unit cube with texture 1 at (col−16, level, row−16) of the i-th block |
| `Scene.BlockCubesExact` | World.js:130-140 | the block placements are exactly one unit cube with texture 1 at (col−16, level, row−16) for each cell and each level below its height, with no placement repeated |
| `Scene.BlocksUseBlockTexture` | World.js:133-137 | every block is drawn with texture 1 |
| `Scene.FrogIsFlat` | World.js:146-177 | the frog is five cubes, all flat-coloured |
| `Scene.SceneNeverMagenta` | World.js:119-177 | no placement of a frame reaches the shader's magenta fallback |
| `Controller.InitialWorld` | World.js:5-6 | at page load: the start-up grid, no camera, latch clear, no mouse baseline, nothing drawn, logged or written astray |
| `Controller.CheckFrogFound` | World.js:180-187 | the latch becomes set if it was set or the camera is within 2 of the frog in x and z; the message is logged exactly when the latch flips; nothing else changes |
| `Controller.Render` | World.js:114-144 | one more frame; the latch is checked after drawing; grid, camera, baseline and stray writes unchanged |
| `Controller.TexturesReady` | World.js:47-50 | once both textures load, the camera is constructed and one frame drawn; the initial eye is not near the frog, so the latch, the log and the stray writes stay as they were |
| `Controller.ToLower` | World.js:190 | lower-casing keeps the length and lower-cases each ASCII capital |
| `Controller.LowerSingle` | World.js:190 | a key lower-cases to a given letter exactly when it is that letter in either case |
| `Controller.LoweredKeyMatchesTable` | World.js:190-197 | the lowered key's command is the table's command for the original key: w/s/a/d move and q/e pan, in either case |
| `Controller.HandleKey` | World.js:189-199 | without a camera the handler throws and nothing changes; otherwise the key's command (move by 0.5 or pan by 5) is applied, then exactly one frame is drawn |
| `Controller.KeyRendersOnce` | World.js:189-199 | every key press with a camera draws exactly one frame and leaves the grid alone; an unmapped key still draws and leaves the camera unchanged |
| `Controller.MouseMove` | World.js:201-210 | no camera: nothing changes, and the baseline is not recorded; no baseline: only the baseline is recorded, with no pan and no frame; otherwise: rotate about up by dx/2, draw one frame, then record the new baseline |
| `Controller.ManageMouseClick` | World.js:212-221 | without a camera, or without a getFocusedGrid method: nothing changes and nothing is drawn; otherwise one click edit at the returned cell, then one frame whose latch check sees the unchanged camera; the camera and the mouse baseline stay as they were |
| `Controller.ClickIsNoOp` | World.js:212-213 | with the camera's actual methods, a click leaves the whole state unchanged |
| `Controller.Step` | World.js:47-53 | the listeners: textures loaded builds the camera, a key press before the camera exists changes nothing and otherwise applies the key's command and draws one frame with its latch check, a mouse move goes to the mouse handler, and a click changes nothing |
| `Controller.StepKeepsConsistent` | World.js:180-221 | every event keeps the state consistent (valid grid, message logged once exactly when the latch is set, view current) and keeps the grid, the latch and the baseline once set |
| `Controller.RunInvariants` | World.js:180-221 | over any event sequence, the state stays consistent, the grid never changes, the latch never clears, and the mouse baseline never clears |
| `Controller.SessionGreetsAtMostOnce` | World.js:180-187 | from any page-load state, under any events, the frog's message is logged at most once, exactly when the latch is set, and the grid is still the one the page loaded with |

## Left out

- Shader sources, program compilation and uniform/attribute lookup (World.js:8-86) are GPU setup. The texture selector's four-way branch appears only as `Scene.Shade`.
- Texture loading and its two-image completion callback (World.js:88-108) are asynchronous browser I/O. The callback's effect is the `TexturesLoaded` event.
- Cube.js and Triangle.js only upload buffers and issue draw calls. A placement records what each cube draw is given: texture selector, colour, translation and scale.
- The numerics of `normalize`, `cross`, `setRotate`/`multiplyVector3`, `setLookAt` and `setPerspective` are floating point and belong to a matrix library that is not part of this model. They are uninterpreted.
- Vectors are modelled over `real`, not 32-bit floats. Distance preservation, pan round trips and exact move round trips do not hold in floats, so none is claimed. The move and pan contracts state only which vector is added, or which rotation is applied.
- `Math.random` becomes a grid of samples in [0, 1) passed to `VoxelGrid.InitGrid`.
- `console.log` becomes the `greetings` counter. The frame count is the `renders` counter. A frame's contents are `Scene.RenderScene` of the grid and are not stored in the state.
- DOM event registration (World.js:51-53) becomes the `Event` datatype and `Controller.Step`.
- `Controller.ToLower` lower-cases ASCII capitals only. JavaScript's Unicode lower-casing maps no other character to w, s, a, d, q or e, so the command table is unaffected.
- `Controller.MouseMove` takes `clientX` as an integer. Browsers may report fractional pixels.
- `Controller.Step` has to pass some cell function to the click handler. It passes the grid probe, but `Controller.ClickIsNoOp` shows that the choice has no effect.
- `VoxelGrid.Increment` records only the coordinates of a stray write, not the not-a-number value stored there. Later clicks on that slot leave it not-a-number, and the renderer never reads it.
- The `gl.clear` that an unmapped key performs before throwing, when there is no camera yet, is a GPU call and is not modelled.
- The aspect ratio `canvas.width / canvas.height` (camera.js:9) is a parameter, so a zero-height canvas is not modelled.
