/** The integer helpers and the plane projection of pkg/geom/util.go. */
module GeomUtil {

  /** Min: `val` when it is the smaller, else `a`. */
  function Min(val: int, a: int): (r: int)
    ensures r <= val && r <= a
    ensures r == val || r == a
  {
    if val < a then val else a
  }

  /** Max: `val` when it is the larger, else `a`. */
  function Max(val: int, a: int): (r: int)
    ensures r >= val && r >= a
    ensures r == val || r == a
  {
    if val > a then val else a
  }

  /** Min and Max are idempotent, commutative, and together return both
      arguments. */
  lemma MinMaxLaws(x: int, y: int)
    ensures Min(x, x) == x && Max(x, x) == x
    ensures Min(x, y) == Min(y, x) && Max(x, y) == Max(y, x)
    ensures Min(x, y) + Max(x, y) == x + y
    ensures Min(x, y) <= Max(x, y)
  {
  }

  /** Clamping with Max then Min, as the chunk sweeps do, lands inside the
      bounds whenever they are ordered. */
  lemma ClampInRange(x: int, lo: int, hi: int)
    requires lo <= hi
    ensures lo <= Min(Max(x, lo), hi) <= hi
    ensures lo <= x <= hi ==> Min(Max(x, lo), hi) == x
  {
  }

  datatype Vec3 = Vec3(x: real, y: real, z: real)

  function Sub(a: Vec3, b: Vec3): Vec3 {
    Vec3(a.x - b.x, a.y - b.y, a.z - b.z)
  }

  function Dot(a: Vec3, b: Vec3): real {
    a.x * b.x + a.y * b.y + a.z * b.z
  }

  /** ProjectToPlane: the zero vector is returned as it is; any other
      vector loses its component along the normal. That component,
      `Project(v, n)`, needs a square root to normalise `n` and is taken as
      the parameter `along`. */
  function ProjectToPlane(v: Vec3, along: Vec3): (r: Vec3)
    ensures v == Vec3(0.0, 0.0, 0.0) ==> r == v
    ensures v != Vec3(0.0, 0.0, 0.0) ==> Sub(v, r) == along
  {
    if v.x == 0.0 && v.y == 0.0 && v.z == 0.0 then v
    else Sub(v, along)
  }

  /** When `along` is the true projection on a unit normal `u` (a multiple
      of `u` agreeing with `v` along it), the result is orthogonal to `u`. */
  lemma ProjectToPlaneIsOrthogonal(v: Vec3, u: Vec3, k: real)
    requires Dot(u, u) == 1.0 && k == Dot(v, u)
    ensures Dot(ProjectToPlane(v, Vec3(k * u.x, k * u.y, k * u.z)), u) == 0.0
  {
    var along := Vec3(k * u.x, k * u.y, k * u.z);
    if v != Vec3(0.0, 0.0, 0.0) {
      calc {
        Dot(Sub(v, along), u);
        Dot(v, u) - k * Dot(u, u);
        0.0;
      }
    } else {
      assert k == 0.0;
    }
  }
}
