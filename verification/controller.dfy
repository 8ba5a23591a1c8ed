/**
  The page's session state and its event handlers: keyboard movement,
  mouse panning with a remembered last x position, clicks that would edit
  the grid, and the render that runs the one-shot "frog found" check.
  Each handler is a pure step from one `World` to the next.
*/
module Controller {
  import opened Basics
  import opened Vectors
  import opened Cameras
  import opened VoxelGrid

  /** Distance moved per movement key. */
  const MoveStep: real := 0.5
  /** Degrees panned per pan key. */
  const PanStep: real := 5.0
  /** Degrees panned per pixel of horizontal mouse travel. */
  const MouseGain: real := 0.5
  /** Half-width of the square around the frog that counts as finding it. */
  const FrogRadius: real := 2.0
  /** The method the click handler looks for on the camera. */
  const FocusedGridMethod: string := "getFocusedGrid"

  /**
    Everything the page keeps between events:
    - `grid`: the visible 32x32 height map;
    - `camera`: absent until both textures have loaded;
    - `animalFound`: the one-shot latch;
    - `lastX`: the previous mouse x position, absent before the first move;
    - `renders`: how many frames have been drawn;
    - `greetings`: how many times the frog's message has been logged;
    - `strays`: cells outside the window that an unchecked row has written to.
  */
  datatype World = World(
    grid: Grid,
    camera: Option<Camera>,
    animalFound: bool,
    lastX: Option<int>,
    renders: nat,
    greetings: nat,
    strays: set<(int, int)>
  )

  /** The exception a handler throws when it dereferences the still-undefined camera. */
  datatype Fault = CameraUndefined

  /** The state at page load: a valid grid, no camera, latch clear, no mouse baseline, nothing drawn, logged or written astray. */
  predicate PageLoaded(w: World) {
    && ValidGrid(w.grid) && w.camera.None? && w.lastX.None?
    && !w.animalFound && w.greetings == 0 && w.renders == 0 && w.strays == {}
  }

  /** The state when the page has loaded, before the textures arrive, holding the random start-up grid. */
  function InitialWorld(samples: seq<seq<real>>): (w: World)
    requires ValidSamples(samples)
    ensures PageLoaded(w) && w.grid == InitGrid(samples)
  {
    World(InitGrid(samples), None, false, None, 0, 0, {})
  }

  /**
    What holds in every state a session reaches: the grid is valid, the
    message has been logged once exactly when the latch is set, the view
    matrix matches the pose, a last mouse position exists only once the
    camera does, and stray writes only hit existing columns at rows outside
    the grid.
  */
  predicate Consistent(lib: VectorLib, w: World) {
    && ValidGrid(w.grid)
    && w.greetings == (if w.animalFound then 1 else 0)
    && (w.camera.Some? ==> ViewCurrent(lib, w.camera.value))
    && (w.lastX.Some? ==> w.camera.Some?)
    && (forall cell :: cell in w.strays ==> InBounds(cell.0) && !InBounds(cell.1))
  }

  /** The camera stands within the square of half-width 2 around the frog, in x and z. */
  predicate NearFrog(c: Camera) {
    Abs(c.eye.x) < FrogRadius && Abs(c.eye.z) < FrogRadius
  }

  /** Sets the latch and logs the message, the first time the camera is near the frog. */
  function CheckFrogFound(w: World): (r: World)
    requires w.camera.Some?
    ensures r.animalFound <==> w.animalFound || NearFrog(w.camera.value)
    ensures r.greetings == if !w.animalFound && r.animalFound then w.greetings + 1 else w.greetings
    ensures r.(animalFound := w.animalFound, greetings := w.greetings) == w
  {
    var c := w.camera.value;
    if !w.animalFound && Abs(c.eye.x) < FrogRadius && Abs(c.eye.z) < FrogRadius then
      w.(animalFound := true, greetings := w.greetings + 1)
    else
      w
  }

  /** One frame is counted, then the latch is checked against the camera's position. */
  function Render(w: World): (r: World)
    requires w.camera.Some?
    ensures r.renders == w.renders + 1
    ensures r.animalFound <==> w.animalFound || NearFrog(w.camera.value)
    ensures r.greetings == if !w.animalFound && r.animalFound then w.greetings + 1 else w.greetings
    ensures r.grid == w.grid && r.camera == w.camera && r.lastX == w.lastX && r.strays == w.strays
  {
    CheckFrogFound(w.(renders := w.renders + 1))
  }

  /** The textures have loaded: the camera is built and the first frame drawn. */
  function TexturesReady(lib: VectorLib, w: World, aspect: real): (r: World)
    ensures r.camera == Some(NewCamera(lib, aspect))
    ensures r.renders == w.renders + 1 && r.grid == w.grid && r.lastX == w.lastX
    ensures r.animalFound == w.animalFound && r.greetings == w.greetings && r.strays == w.strays
  {
    Render(w.(camera := Some(NewCamera(lib, aspect))))
  }

  // ---------------------------------------------------------------------
  // Keyboard

  datatype Command = Forward | Backward | StrafeLeft | StrafeRight | TurnLeft | TurnRight | Ignored

  /** ASCII upper-case letters map to lower case; no character outside 'A'..'Z' lower-cases to w, s, a, d, q or e, so the key commands see no difference. */
  function LowerChar(ch: char): char {
    if 'A' <= ch <= 'Z' then (ch as int + 32) as char else ch
  }

  function ToLower(s: string): (t: string)
    ensures |t| == |s|
    ensures forall i :: 0 <= i < |s| ==> t[i] == LowerChar(s[i])
  {
    seq(|s|, i requires 0 <= i < |s| => LowerChar(s[i]))
  }

  /** The command table: w/s/a/d move, q/e pan, in either case; every other key does nothing. */
  function KeyCommand(key: string): Command {
    if key in {"w", "W"} then Forward
    else if key in {"s", "S"} then Backward
    else if key in {"a", "A"} then StrafeLeft
    else if key in {"d", "D"} then StrafeRight
    else if key in {"q", "Q"} then TurnLeft
    else if key in {"e", "E"} then TurnRight
    else Ignored
  }

  function Perform(lib: VectorLib, c: Camera, cmd: Command): Camera {
    match cmd
    case Forward => MoveForward(lib, c, MoveStep)
    case Backward => MoveBackward(lib, c, MoveStep)
    case StrafeLeft => MoveLeft(lib, c, MoveStep)
    case StrafeRight => MoveRight(lib, c, MoveStep)
    case TurnLeft => PanLeft(lib, c, PanStep)
    case TurnRight => PanRight(lib, c, PanStep)
    case Ignored => c
  }

  /** A one-character key lower-cases to `[lc]` exactly when it is `[lc]` or its upper-case partner. */
  lemma LowerSingle(key: string, lc: char)
    requires 'a' <= lc <= 'z'
    ensures ToLower(key) == [lc] <==> key == [lc] || key == [(lc as int - 32) as char]
  {
    if ToLower(key) == [lc] {
      assert |key| == 1 && LowerChar(key[0]) == lc;
      assert key == [key[0]];
    }
    if key == [(lc as int - 32) as char] {
      assert ToLower(key)[0] == lc;
    }
  }

  /**
    The handler lower-cases the key and tests it against each letter in
    turn, so it performs exactly the command the table assigns to the key:
    at most one test can succeed.
  */
  lemma LoweredKeyMatchesTable(key: string)
    ensures KeyCommandOf(ToLower(key)) == KeyCommand(key)
  {
    LowerSingle(key, 'w');
    LowerSingle(key, 's');
    LowerSingle(key, 'a');
    LowerSingle(key, 'd');
    LowerSingle(key, 'q');
    LowerSingle(key, 'e');
  }

  /** The command a lower-cased key selects. */
  function KeyCommandOf(k: string): Command {
    if k == "w" then Forward
    else if k == "s" then Backward
    else if k == "a" then StrafeLeft
    else if k == "d" then StrafeRight
    else if k == "q" then TurnLeft
    else if k == "e" then TurnRight
    else Ignored
  }

  /**
    A key press: lower-case the key, run each of the six guarded moves in
    turn, then draw one frame. Before the camera exists the first use of
    it throws and the handler stops with nothing changed.
  */
  function HandleKey(lib: VectorLib, w: World, key: string): (r: Result<World, Fault>)
    ensures r.Err? <==> w.camera.None?
    ensures r.Ok? ==> r.value == Render(w.(camera := Some(Perform(lib, w.camera.value, KeyCommand(key)))))
  {
    if w.camera.None? then Err(CameraUndefined)
    else
      var k := ToLower(key);
      var c0 := w.camera.value;
      var c1 := if k == "w" then MoveForward(lib, c0, MoveStep) else c0;
      var c2 := if k == "s" then MoveBackward(lib, c1, MoveStep) else c1;
      var c3 := if k == "a" then MoveLeft(lib, c2, MoveStep) else c2;
      var c4 := if k == "d" then MoveRight(lib, c3, MoveStep) else c3;
      var c5 := if k == "q" then PanLeft(lib, c4, PanStep) else c4;
      var c6 := if k == "e" then PanRight(lib, c5, PanStep) else c5;
      LoweredKeyMatchesTable(key);
      Ok(Render(w.(camera := Some(c6))))
  }

  /** Every key press on a live camera draws exactly one frame and leaves the grid alone, mapped or not. */
  lemma KeyRendersOnce(lib: VectorLib, w: World, key: string)
    requires w.camera.Some?
    ensures HandleKey(lib, w, key).Ok?
    ensures HandleKey(lib, w, key).value.renders == w.renders + 1
    ensures HandleKey(lib, w, key).value.grid == w.grid
    ensures KeyCommand(key) == Ignored ==> HandleKey(lib, w, key).value.camera == w.camera
  {
  }

  // ---------------------------------------------------------------------
  // Mouse

  /**
    Mouse movement: ignored before the camera exists; the first move only
    records its x position; later moves pan right by half the pixel delta,
    negated, draw a frame, and record the new position.
  */
  function MouseMove(lib: VectorLib, w: World, clientX: int): (r: World)
    ensures w.camera.None? ==> r == w
    ensures w.camera.Some? && w.lastX.None? ==> r == w.(lastX := Some(clientX))
    ensures w.camera.Some? && w.lastX.Some? ==>
      var turned := RotateAroundUp(lib, w.camera.value, (clientX - w.lastX.value) as real / 2.0);
      r == Render(w.(camera := Some(turned))).(lastX := Some(clientX))
  {
    if w.camera.None? then w
    else if w.lastX.None? then w.(lastX := Some(clientX))
    else
      var dx := clientX - w.lastX.value;
      var c := PanRight(lib, w.camera.value, -(dx as real) * MouseGain);
      Render(w.(camera := Some(c))).(lastX := Some(clientX))
  }

  // ---------------------------------------------------------------------
  // Click

  /**
    A click. The handler proceeds only if the camera exists and has a
    method named `getFocusedGrid` among `methods`; then it edits the cell
    that method returns (`focus`), and draws a frame.
  */
  function ManageMouseClick(w: World, methods: set<string>, focus: Camera -> (int, int), shift: bool): (r: World)
    requires ValidGrid(w.grid)
    ensures w.camera.None? || FocusedGridMethod !in methods ==> r == w
    ensures w.camera.Some? && FocusedGridMethod in methods ==>
      var cell := focus(w.camera.value);
      var e := ClickEdit(w.grid, cell.0, cell.1, shift);
      && r.grid == e.grid && OthersUnchanged(w.grid, r.grid, cell.0, cell.1)
      && r.renders == w.renders + 1
      && r.strays == w.strays + (if e.stray.Some? then {e.stray.value} else {})
      && r.camera == w.camera && r.lastX == w.lastX
      && (r.animalFound <==> w.animalFound || NearFrog(w.camera.value))
      && r.greetings == (if !w.animalFound && r.animalFound then w.greetings + 1 else w.greetings)
  {
    if w.camera.None? || FocusedGridMethod !in methods then w
    else
      var cell := focus(w.camera.value);
      var e := ClickEdit(w.grid, cell.0, cell.1, shift);
      var strays := if e.stray.Some? then w.strays + {e.stray.value} else w.strays;
      Render(w.(grid := e.grid, strays := strays))
  }

  /** The camera has no `getFocusedGrid`, so on this page a click changes nothing, whatever that method would have returned. */
  lemma ClickIsNoOp(w: World, focus: Camera -> (int, int), shift: bool)
    requires ValidGrid(w.grid)
    ensures ManageMouseClick(w, CameraMethods, focus, shift) == w
  {
    NoFocusedGridMethod();
  }

  // ---------------------------------------------------------------------
  // Sessions

  datatype Event =
    | TexturesLoaded(aspect: real)
    | KeyDown(key: string)
    | MouseMoved(clientX: int)
    | Clicked(shift: bool)

  /**
    One event, dispatched to its handler. A key handler that throws leaves
    the state as it was. Clicks go to a camera whose methods are
    `CameraMethods`; the probe cell stands in for what `getFocusedGrid`
    would return, which `ClickIsNoOp` shows is never consulted.
  */
  function Step(lib: VectorLib, w: World, e: Event): (r: World)
    requires ValidGrid(w.grid)
    ensures e.TexturesLoaded? ==> r == TexturesReady(lib, w, e.aspect)
    ensures e.KeyDown? && w.camera.None? ==> r == w
    ensures e.KeyDown? && w.camera.Some? ==>
      r == Render(w.(camera := Some(Perform(lib, w.camera.value, KeyCommand(e.key)))))
    ensures e.MouseMoved? ==> r == MouseMove(lib, w, e.clientX)
    ensures e.Clicked? ==> r == w
  {
    match e
    case TexturesLoaded(aspect) => TexturesReady(lib, w, aspect)
    case KeyDown(key) =>
      (match HandleKey(lib, w, key)
       case Ok(w') => w'
       case Err(_) => w)
    case MouseMoved(x) => MouseMove(lib, w, x)
    case Clicked(shift) =>
      ClickIsNoOp(w, c => GridCoordsInFront(lib, c), shift);
      ManageMouseClick(w, CameraMethods, c => GridCoordsInFront(lib, c), shift)
  }

  lemma StepKeepsConsistent(lib: VectorLib, w: World, e: Event)
    requires Consistent(lib, w)
    ensures Consistent(lib, Step(lib, w, e))
    ensures Step(lib, w, e).grid == w.grid
    ensures w.animalFound ==> Step(lib, w, e).animalFound
    ensures w.lastX.Some? ==> Step(lib, w, e).lastX.Some?
  {
    match e
    case TexturesLoaded(aspect) =>
    case KeyDown(key) =>
    case MouseMoved(x) =>
    case Clicked(shift) =>
      ClickIsNoOp(w, c => GridCoordsInFront(lib, c), shift);
  }

  function Run(lib: VectorLib, w: World, events: seq<Event>): World
    requires Consistent(lib, w)
    decreases |events|
  {
    if |events| == 0 then w
    else
      StepKeepsConsistent(lib, w, events[0]);
      Run(lib, Step(lib, w, events[0]), events[1..])
  }

  /**
    Over any sequence of events: the state stays consistent, the grid never
    changes (clicks never reach it), the latch never resets, and once a
    mouse position has been recorded there always is one.
  */
  lemma {:induction false} RunInvariants(lib: VectorLib, w: World, events: seq<Event>)
    requires Consistent(lib, w)
    ensures Consistent(lib, Run(lib, w, events))
    ensures Run(lib, w, events).grid == w.grid
    ensures w.animalFound ==> Run(lib, w, events).animalFound
    ensures w.lastX.Some? ==> Run(lib, w, events).lastX.Some?
    decreases |events|
  {
    if |events| > 0 {
      StepKeepsConsistent(lib, w, events[0]);
      RunInvariants(lib, Step(lib, w, events[0]), events[1..]);
    }
  }

  /**
    From any page-load state (`InitialWorld` gives one for each start-up
    grid), whatever happens, the frog's message is logged at most once, and
    exactly once if the latch is set; the height map is still the one the
    page loaded with.
  */
  lemma SessionGreetsAtMostOnce(lib: VectorLib, w0: World, events: seq<Event>)
    requires PageLoaded(w0)
    ensures Consistent(lib, w0)
    ensures var w := Run(lib, w0, events);
      && w.greetings <= 1
      && (w.greetings == 1 <==> w.animalFound)
      && w.grid == w0.grid
  {
    RunInvariants(lib, w0, events);
  }
}
