/**
 * Values shared by the structure, loader and viewer models: an optional
 * value (Rust's `Option`) and points in space with `f32` coordinates
 * taken as reals.
 */
module Common {
  datatype Option<T> = None | Some(value: T)

  /** A point or displacement `[x, y, z]`, in angstrom. */
  datatype Vec3 = Vec3(x: real, y: real, z: real)

  function Add(a: Vec3, b: Vec3): Vec3
  {
    Vec3(a.x + b.x, a.y + b.y, a.z + b.z)
  }

  function Scale(a: Vec3, k: real): Vec3
  {
    Vec3(a.x * k, a.y * k, a.z * k)
  }

  /** The squared Euclidean distance `dx² + dy² + dz²`. */
  function Dist2(a: Vec3, b: Vec3): real
  {
    var dx, dy, dz := a.x - b.x, a.y - b.y, a.z - b.z;
    dx * dx + dy * dy + dz * dz
  }

  lemma NegSquare(d: real)
    ensures (-d) * (-d) == d * d
  {
  }

  /** The distance between two points is the same both ways round. */
  lemma Dist2Symmetric(a: Vec3, b: Vec3)
    ensures Dist2(a, b) == Dist2(b, a)
  {
    var dx, dy, dz := a.x - b.x, a.y - b.y, a.z - b.z;
    assert b.x - a.x == -dx && b.y - a.y == -dy && b.z - a.z == -dz;
    NegSquare(dx);
    NegSquare(dy);
    NegSquare(dz);
  }
}
