/**
  The first-person camera: an `eye` position, a look-at point `at`, an `up`
  reference, a fixed field of view, and the view and projection matrices
  derived from them. Every mutation is a pure function from the old pose to
  the new one and ends by recomputing the view matrix.
*/
module Cameras {
  import opened Vectors

  /** Vertical field of view in degrees, fixed at construction. */
  const Fov: real := 60.0
  const Near: real := 0.1
  const Far: real := 1000.0

  const InitialEye: Vec3 := Vec3(0.0, 1.0, 5.0)
  const InitialAt: Vec3 := Vec3(0.0, 1.0, 4.0)
  const WorldUp: Vec3 := Vec3(0.0, 1.0, 0.0)

  /** Half the grid's side: the probe shifts by this much in x and z. */
  const GridHalf: real := 16.0

  /**
    The names of the methods a `Camera` object answers to. Callers that
    test for a method by name (duck typing) consult this set.
  */
  const CameraMethods: set<string> := {
    "updateView", "moveForward", "moveBackward", "moveLeft", "moveRight",
    "panLeft", "panRight", "rotateAroundUp", "getGridCoordsInFront"
  }

  datatype Camera = Camera(
    fov: real,
    eye: Vec3,
    at: Vec3,
    up: Vec3,
    view: Mat4,
    projection: Mat4
  )

  /** The view matrix reflects the current pose: `updateView` has run since the last change. */
  predicate ViewCurrent(lib: VectorLib, c: Camera) {
    c.view == lib.lookAt(c.eye, c.at, c.up)
  }

  /** `r` has the same `up`, field of view and projection as `c`. */
  predicate SameFrame(c: Camera, r: Camera) {
    r.up == c.up && r.fov == c.fov && r.projection == c.projection
  }

  /** Normalised forward direction, `normalize(at - eye)`. */
  function Forward(lib: VectorLib, c: Camera): Vec3 {
    lib.normalize(Sub(c.at, c.eye))
  }

  function UpdateView(lib: VectorLib, c: Camera): (r: Camera)
    ensures ViewCurrent(lib, r)
    ensures r.eye == c.eye && r.at == c.at && SameFrame(c, r)
  {
    c.(view := lib.lookAt(c.eye, c.at, c.up))
  }

  /** The constructor; `aspect` is the canvas's width divided by its height. */
  function NewCamera(lib: VectorLib, aspect: real): (r: Camera)
    ensures r.eye == InitialEye && r.up == WorldUp && r.fov == Fov
    ensures Sub(r.at, r.eye) == Vec3(0.0, 0.0, -1.0)
    ensures r.projection == lib.perspective(Fov, aspect, Near, Far)
    ensures ViewCurrent(lib, r)
  {
    var c := Camera(Fov, InitialEye, InitialAt, WorldUp, [], lib.perspective(Fov, aspect, Near, Far));
    UpdateView(lib, c)
  }

  /** Adds one offset vector to both `eye` and `at`, then updates the view. */
  function Translate(lib: VectorLib, c: Camera, d: Vec3): (r: Camera)
    ensures Sub(r.eye, c.eye) == d && Sub(r.at, c.at) == d
    ensures SameFrame(c, r) && ViewCurrent(lib, r)
  {
    UpdateView(lib, c.(eye := Add(c.eye, d), at := Add(c.at, d)))
  }

  function MoveForward(lib: VectorLib, c: Camera, speed: real): (r: Camera)
    ensures Sub(r.eye, c.eye) == Scale(speed, Forward(lib, c))
    ensures Sub(r.at, c.at) == Sub(r.eye, c.eye)
    ensures SameFrame(c, r) && ViewCurrent(lib, r)
  {
    Translate(lib, c, Scale(speed, lib.normalize(Sub(c.at, c.eye))))
  }

  function MoveBackward(lib: VectorLib, c: Camera, speed: real): (r: Camera)
    ensures Sub(r.eye, c.eye) == Scale(speed, lib.normalize(Sub(c.eye, c.at)))
    ensures Sub(r.at, c.at) == Sub(r.eye, c.eye)
    ensures SameFrame(c, r) && ViewCurrent(lib, r)
  {
    Translate(lib, c, Scale(speed, lib.normalize(Sub(c.eye, c.at))))
  }

  /** Strafe along `normalize(cross(up, forward))`. */
  function MoveLeft(lib: VectorLib, c: Camera, speed: real): (r: Camera)
    ensures Sub(r.eye, c.eye) == Scale(speed, lib.normalize(lib.cross(c.up, Forward(lib, c))))
    ensures Sub(r.at, c.at) == Sub(r.eye, c.eye)
    ensures SameFrame(c, r) && ViewCurrent(lib, r)
  {
    var f := lib.normalize(Sub(c.at, c.eye));
    Translate(lib, c, Scale(speed, lib.normalize(lib.cross(c.up, f))))
  }

  /** Strafe along `normalize(cross(forward, up))`: the cross product's arguments are swapped. */
  function MoveRight(lib: VectorLib, c: Camera, speed: real): (r: Camera)
    ensures Sub(r.eye, c.eye) == Scale(speed, lib.normalize(lib.cross(Forward(lib, c), c.up)))
    ensures Sub(r.at, c.at) == Sub(r.eye, c.eye)
    ensures SameFrame(c, r) && ViewCurrent(lib, r)
  {
    var f := lib.normalize(Sub(c.at, c.eye));
    Translate(lib, c, Scale(speed, lib.normalize(lib.cross(f, c.up))))
  }

  /** Rotates the look vector `at - eye` by `angle` degrees about `up`; `eye` stays put. */
  function RotateAroundUp(lib: VectorLib, c: Camera, angle: real): (r: Camera)
    ensures r.eye == c.eye
    ensures Sub(r.at, r.eye) == lib.rotate(angle, c.up, Sub(c.at, c.eye))
    ensures SameFrame(c, r) && ViewCurrent(lib, r)
  {
    var f' := lib.rotate(angle, c.up, Sub(c.at, c.eye));
    UpdateView(lib, c.(at := Add(c.eye, f')))
  }

  function PanLeft(lib: VectorLib, c: Camera, angle: real): (r: Camera)
    ensures r == RotateAroundUp(lib, c, angle)
  {
    RotateAroundUp(lib, c, angle)
  }

  function PanRight(lib: VectorLib, c: Camera, angle: real): (r: Camera)
    ensures r == RotateAroundUp(lib, c, -angle)
  {
    RotateAroundUp(lib, c, -angle)
  }

  /** The point one unit ahead of `eye`, shifted by half the grid in x and z. */
  function Probe(lib: VectorLib, c: Camera): Vec3 {
    Add(Add(c.eye, Forward(lib, c)), Vec3(GridHalf, 0.0, GridHalf))
  }

  /** The (column, row) cell under the probe point: both horizontal components floored. */
  function GridCoordsInFront(lib: VectorLib, c: Camera): (cell: (int, int))
    ensures cell.0 as real <= c.eye.x + Forward(lib, c).x + GridHalf < cell.0 as real + 1.0
    ensures cell.1 as real <= c.eye.z + Forward(lib, c).z + GridHalf < cell.1 as real + 1.0
  {
    var p := Probe(lib, c);
    (p.x.Floor, p.z.Floor)
  }

  /** Walking backward is walking forward by the negated speed, whenever the library's normalisation is odd on the look vector. */
  lemma MoveBackwardIsNegatedForward(lib: VectorLib, c: Camera, speed: real)
    requires lib.normalize(Sub(c.eye, c.at)) == Neg(lib.normalize(Sub(c.at, c.eye)))
    ensures MoveBackward(lib, c, speed) == MoveForward(lib, c, -speed)
  {
    var f := lib.normalize(Sub(c.at, c.eye));
    assert Scale(speed, Neg(f)) == Scale(-speed, f);
  }

  /**
    Strafing right is strafing left by the negated speed, whenever the
    cross product is anti-commutative and normalisation odd on the vectors
    involved: the swapped argument order alone decides the direction.
  */
  lemma MoveRightIsNegatedLeft(lib: VectorLib, c: Camera, speed: real)
    requires lib.cross(Forward(lib, c), c.up) == Neg(lib.cross(c.up, Forward(lib, c)))
    requires lib.normalize(Neg(lib.cross(c.up, Forward(lib, c)))) == Neg(lib.normalize(lib.cross(c.up, Forward(lib, c))))
    ensures MoveRight(lib, c, speed) == MoveLeft(lib, c, -speed)
  {
    var s := lib.normalize(lib.cross(c.up, Forward(lib, c)));
    assert Scale(speed, Neg(s)) == Scale(-speed, s);
  }

  /** Panning right by `a` is panning left by `-a`. */
  lemma PanRightIsNegatedPanLeft(lib: VectorLib, c: Camera, angle: real)
    ensures PanRight(lib, c, angle) == PanLeft(lib, c, -angle)
  {
  }

  /**
    From the initial pose the camera looks down -z, so the probe lands at
    (0, 1, 4) + (16, 0, 16) and picks cell (16, 20), given only that the
    library leaves the unit vector (0, 0, -1) as it is.
  */
  lemma InitialProbeCell(lib: VectorLib, aspect: real)
    requires lib.normalize(Vec3(0.0, 0.0, -1.0)) == Vec3(0.0, 0.0, -1.0)
    ensures GridCoordsInFront(lib, NewCamera(lib, aspect)) == (16, 20)
  {
    var c := NewCamera(lib, aspect);
    assert Sub(c.at, c.eye) == Vec3(0.0, 0.0, -1.0);
    assert Probe(lib, c) == Vec3(16.0, 1.0, 20.0);
  }

  /** The camera has no method named `getFocusedGrid`; it offers `getGridCoordsInFront`. */
  lemma NoFocusedGridMethod()
    ensures "getFocusedGrid" !in CameraMethods
    ensures "getGridCoordsInFront" in CameraMethods
  {
  }
}
