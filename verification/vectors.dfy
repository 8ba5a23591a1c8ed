/**
  Three-component vectors over the reals, and the vector/matrix library the
  camera calls into. The library's numerics (normalisation, cross product,
  rotation about an axis, look-at and perspective matrices) are not part of
  this model: they are carried as function-valued fields of `VectorLib`, so
  every fact proved about the camera holds for any library whatsoever.
*/
module Vectors {

  datatype Vec3 = Vec3(x: real, y: real, z: real)

  /** The sixteen elements of a 4x4 matrix, as the library stores them. */
  type Mat4 = seq<real>

  function Add(a: Vec3, b: Vec3): Vec3 { Vec3(a.x + b.x, a.y + b.y, a.z + b.z) }

  function Sub(a: Vec3, b: Vec3): Vec3 { Vec3(a.x - b.x, a.y - b.y, a.z - b.z) }

  function Scale(k: real, v: Vec3): Vec3 { Vec3(k * v.x, k * v.y, k * v.z) }

  function Neg(v: Vec3): Vec3 { Vec3(-v.x, -v.y, -v.z) }

  /**
    The operations the camera borrows from the matrix library, left
    uninterpreted:
    - `normalize(v)`: `v` scaled to unit length;
    - `cross(a, b)`: the cross product, argument order significant;
    - `rotate(angle, axis, v)`: a rotation matrix of `angle` degrees about
      `axis` applied to `v`;
    - `lookAt(eye, at, up)`: the view matrix;
    - `perspective(fov, aspect, near, far)`: the projection matrix.
  */
  datatype VectorLib = VectorLib(
    normalize: Vec3 -> Vec3,
    cross: (Vec3, Vec3) -> Vec3,
    rotate: (real, Vec3, Vec3) -> Vec3,
    lookAt: (Vec3, Vec3, Vec3) -> Mat4,
    perspective: (real, real, real, real) -> Mat4
  )
}
