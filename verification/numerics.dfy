/** Real-number helpers, 3-vectors and the external collaborators of the analysis.

    The original computes in IEEE floating point; this model computes in exact real
    arithmetic and makes no rounding claims. Square roots, trigonometric functions,
    exponentials, the minimum-image displacement and the periodic cutoff are supplied
    by the caller in an `Env` and are otherwise unconstrained. */
module Numerics {

  /** The value of M_PI in the C sources. */
  const Pi: real := 3.14159265358979323846

  function Sqr(x: real): real { x * x }

  /** A quotient whose divisor may be zero at run time. In IEEE arithmetic such a
      division yields an infinity or NaN; the model has no such values and yields 0.0. */
  function Quot(a: real, b: real): (r: real)
    ensures b != 0.0 ==> r * b == a
  {
    if b == 0.0 then 0.0 else a / b
  }

  /** An `rvec`. */
  datatype Vec = Vec(x: real, y: real, z: real)

  function Add(a: Vec, b: Vec): Vec { Vec(a.x + b.x, a.y + b.y, a.z + b.z) }
  function Sub(a: Vec, b: Vec): Vec { Vec(a.x - b.x, a.y - b.y, a.z - b.z) }
  function Scale(s: real, a: Vec): Vec { Vec(s * a.x, s * a.y, s * a.z) }
  function Neg(a: Vec): Vec { Vec(-a.x, -a.y, -a.z) }

  /** `iprod` */
  function Dot(a: Vec, b: Vec): real { a.x * b.x + a.y * b.y + a.z * b.z }

  /** `cprod` */
  function Cross(a: Vec, b: Vec): Vec {
    Vec(a.y * b.z - a.z * b.y, a.z * b.x - a.x * b.z, a.x * b.y - a.y * b.x)
  }

  /** `norm2`: the squared length. */
  function Norm2(a: Vec): (r: real)
    ensures r >= 0.0
  {
    Dot(a, a)
  }

  /** Coordinate k (XX, YY, ZZ) of a vector. */
  function Coord(a: Vec, k: nat): real
    requires k < 3
  {
    if k == 0 then a.x else if k == 1 then a.y else a.z
  }

  /** `unitv`: scales a vector by the inverse square root of its squared length. */
  function Unit(invsqrt: real -> real, a: Vec): Vec {
    Scale(invsqrt(Norm2(a)), a)
  }

  /** A simulation box; the rows of the box matrix. */
  datatype Box = Box(a: Vec, b: Vec, c: Vec)

  /** `det` of the box matrix. */
  function Det(box: Box): real { Dot(box.a, Cross(box.b, box.c)) }

  /** External numerics and collaborators: `sqrt`, `gmx_invsqrt`, `sin`, `cos`, `exp`,
      the minimum-image displacement `pbc_dx(pbc, a, b)` and `max_cutoff2`. */
  datatype Env = Env(
    sqrt: real -> real,
    invsqrt: real -> real,
    sin: real -> real,
    cos: real -> real,
    exp: real -> real,
    pbcDx: (Box, Vec, Vec) -> Vec,
    maxCutoff2: Box -> real)

  /** The one property of `sqrt` that the model relies on: it returns the
      non-negative root of a non-negative argument. */
  ghost predicate SqrtSound(env: Env) {
    forall x: real {:trigger env.sqrt(x)} :: 0.0 <= x ==> 0.0 <= env.sqrt(x) && env.sqrt(x) * env.sqrt(x) == x
  }

  /** A cross product is orthogonal to both of its factors. */
  lemma CrossOrthogonal(a: Vec, b: Vec)
    ensures Dot(Cross(a, b), a) == 0.0 && Dot(Cross(a, b), b) == 0.0
  {
  }

  lemma QuotientNonNegative(u: real, v: real)
    requires u >= 0.0 && v > 0.0
    ensures u / v >= 0.0
  {
  }

  /** A square root respects order: the basis of every cutoff-to-bin argument. */
  lemma SqrtMonotone(env: Env, x: real, y: real)
    requires SqrtSound(env) && 0.0 <= x <= y
    ensures 0.0 <= env.sqrt(x) <= env.sqrt(y)
  {
    var a, b := env.sqrt(x), env.sqrt(y);
    assert 0.0 <= a && a * a == x;
    assert 0.0 <= b && b * b == y;
    if a + b != 0.0 {
      assert b - a == (y - x) / (a + b);
      QuotientNonNegative(y - x, a + b);
    }
  }
}
