/** The part of `THREE.Vector3` the fuse point uses: a point over the reals,
    `lerp`, and the coordinate-wise "lies between two points" relation. */
module Geometry {

  datatype Vec3 = Vec3(x: real, y: real, z: real)

  const Origin: Vec3 := Vec3(0.0, 0.0, 0.0)

  /** `a.clone().lerp(b, s)`: each coordinate moves the fraction `s` of the
      way from `a` to `b`. */
  function Lerp(a: Vec3, b: Vec3, s: real): (p: Vec3)
    ensures s == 0.0 ==> p == a
    ensures s == 1.0 ==> p == b
  {
    Vec3(LerpCoord(a.x, b.x, s), LerpCoord(a.y, b.y, s), LerpCoord(a.z, b.z, s))
  }

  /** One coordinate of `lerp`, written as three.js does: `a += (b - a) * s`.
      It starts at `a` for fraction 0 and reaches `b` at fraction 1. */
  function LerpCoord(a: real, b: real, s: real): (v: real)
    ensures s == 0.0 ==> v == a
    ensures s == 1.0 ==> v == b
  {
    a + (b - a) * s
  }

  /** `v` is on the closed interval spanned by `a` and `b`, in either order. */
  predicate Within(v: real, a: real, b: real) {
    (a <= v <= b) || (b <= v <= a)
  }

  /** Every coordinate of `p` lies between those of `a` and `b`. */
  predicate Between(p: Vec3, a: Vec3, b: Vec3) {
    Within(p.x, a.x, b.x) && Within(p.y, a.y, b.y) && Within(p.z, a.z, b.z)
  }

  /** A fraction in [0, 1] keeps an interpolated coordinate between the ends,
      and the ends are hit at fractions 0 and 1. */
  lemma LerpCoordWithin(a: real, b: real, s: real)
    requires 0.0 <= s <= 1.0
    ensures Within(LerpCoord(a, b, s), a, b)
    ensures s == 0.0 ==> LerpCoord(a, b, s) == a
    ensures s == 1.0 ==> LerpCoord(a, b, s) == b
  {
    var d := b - a;
    var rest := 1.0 - s;
    if d >= 0.0 {
      assert d * s >= 0.0;
      assert d * rest >= 0.0;
      assert d * rest == d - d * s;
    } else {
      var e := a - b;
      assert e * s >= 0.0;
      assert e * rest >= 0.0;
      assert e * rest == e - e * s;
      assert d * s == -(e * s);
    }
  }

  /** `lerp` with a fraction in [0, 1] stays inside the box spanned by its
      two ends. */
  lemma LerpBetween(a: Vec3, b: Vec3, s: real)
    requires 0.0 <= s <= 1.0
    ensures Between(Lerp(a, b, s), a, b)
    ensures s == 0.0 ==> Lerp(a, b, s) == a
    ensures s == 1.0 ==> Lerp(a, b, s) == b
  {
    LerpCoordWithin(a.x, b.x, s);
    LerpCoordWithin(a.y, b.y, s);
    LerpCoordWithin(a.z, b.z, s);
  }
}
