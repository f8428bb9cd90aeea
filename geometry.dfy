/** Vector values, the C math library functions the generators call, and the
    small geometric helpers that several mesh generators share.

    The generators call sinf, cosf, sqrtf and powf. Their values are not
    modelled: a `Libm` bundles four arbitrary real functions, and `TrigLaw`,
    `SqrtLaw` and `PowLaw` state the few facts about them that the proofs
    use. Every member that calls them takes the bundle as a parameter and
    requires the laws it depends on. */
module Geometry {

  datatype Vec2 = Vec2(x: real, y: real)
  datatype Vec3 = Vec3(x: real, y: real, z: real)
  datatype Vec4 = Vec4(x: real, y: real, z: real, w: real)

  /** kPi and kTau as the source defines them (a literal, not the real pi). */
  const kPi: real := 3.141592653589
  const kTau: real := 2.0 * kPi

  const Origin: Vec3 := Vec3(0.0, 0.0, 0.0)

  /** The scene's radius and heights (hacks/glx/snowmen.c:81-83). */
  const kUniverseEdgeRadius: real := 150.0
  const kShoreHeight: real := 1.0
  const kHillsHeight: real := 20.0

  /** RAND_MAX of the C library (2^31 - 1 in glibc). The values random()
      returns are not modelled: generators take them as parameters, each an
      integer in [0, kRandMax]. */
  const kRandMax: int := 0x7fff_ffff

  predicate IsDraw(d: int)
  {
    0 <= d <= kRandMax
  }

  /** sinf, cosf, sqrtf and powf, as uninterpreted real functions. */
  datatype Libm = Libm(sin: real -> real, cos: real -> real,
                       sqrt: real -> real, pow: (real, real) -> real)

  /** What the proofs use of sinf and cosf. */
  ghost predicate TrigLaw(m: Libm)
  {
    && (forall t :: -1.0 <= m.sin(t) <= 1.0)
    && (forall t :: -1.0 <= m.cos(t) <= 1.0)
    && (forall t :: Sq(m.sin(t)) + Sq(m.cos(t)) == 1.0)
    && m.sin(0.0) == 0.0 && m.cos(0.0) == 1.0
    && m.sin(kPi / 2.0) == 1.0
  }

  /** What the proofs use of sqrtf: the root of a positive number is a
      positive number whose square it is. */
  ghost predicate SqrtLaw(m: Libm)
  {
    forall s :: s > 0.0 ==> m.sqrt(s) > 0.0 && Sq(m.sqrt(s)) == s
  }

  /** What the proofs use of powf. */
  ghost predicate PowLaw(m: Libm)
  {
    && (forall e :: e > 0.0 ==> m.pow(0.0, e) == 0.0)
    && (forall b, e :: 0.0 <= b <= 1.0 && e > 0.0 ==> 0.0 <= m.pow(b, e) <= 1.0)
    && (forall b, e :: 0.0 <= b ==> 0.0 <= m.pow(b, e))
  }

  function Add(a: Vec3, b: Vec3): Vec3
  {
    Vec3(a.x + b.x, a.y + b.y, a.z + b.z)
  }

  function Dot(a: Vec3, b: Vec3): real
  {
    a.x * b.x + a.y * b.y + a.z * b.z
  }

  function Sq(a: real): real
  {
    a * a
  }

  /** Squared Euclidean length. */
  function NormSq(v: Vec3): real
  {
    Sq(v.x) + Sq(v.y) + Sq(v.z)
  }

  /** Squared distance from the vertical (y) axis. */
  function RadialSq(v: Vec3): real
  {
    Sq(v.x) + Sq(v.z)
  }

  /** Each coordinate divided by d. */
  function DivideBy(v: Vec3, d: real): Vec3
    requires d != 0.0
  {
    Vec3(v.x / d, v.y / d, v.z / d)
  }

  predicate InUnitSquare(t: Vec2)
  {
    0.0 <= t.x <= 1.0 && 0.0 <= t.y <= 1.0
  }

  lemma ProductOfPositives(a: real, b: real)
    requires a > 0.0 && b > 0.0
    ensures a * b > 0.0
  {
  }

  lemma SqOfPositive(a: real)
    requires a > 0.0
    ensures Sq(a) > 0.0
  {
    var h := a / 2.0;
    ProductOfPositives(a, h);
    assert Sq(a) == 2.0 * (a * h);
  }

  lemma SqPositive(a: real)
    requires a != 0.0
    ensures Sq(a) > 0.0
  {
    if a > 0.0 {
      SqOfPositive(a);
    } else {
      SqOfPositive(-a);
      assert Sq(-a) == Sq(a);
    }
  }

  lemma SqNonneg(a: real)
    ensures Sq(a) >= 0.0
  {
    if a != 0.0 {
      SqPositive(a);
    }
  }

  lemma SqOfProduct(a: real, b: real)
    ensures Sq(a * b) == Sq(a) * Sq(b)
  {
  }

  /** A vector on the positive side of the plane through the origin with normal n
      is not the zero vector. */
  lemma PositiveSideIsNonzero(n: Vec3, v: Vec3)
    requires Dot(n, v) > 0.0
    ensures NormSq(v) > 0.0
  {
    SqNonneg(v.x);
    SqNonneg(v.y);
    SqNonneg(v.z);
    if v.x != 0.0 {
      SqPositive(v.x);
    } else if v.y != 0.0 {
      SqPositive(v.y);
    } else if v.z != 0.0 {
      SqPositive(v.z);
    }
  }

  /** normalizeVertex (hacks/glx/snowmen.c:330-336): each coordinate divided
      by the length. Where the length is zero, and C would divide by zero,
      the vector is returned unchanged. */
  function NormalizeVertex(m: Libm, v: Vec3): Vec3
  {
    var d := m.sqrt(NormSq(v));
    if d == 0.0 then v else DivideBy(v, d)
  }

  /** A vector of non-zero length is normalized onto the unit sphere. */
  lemma NormalizeOnSphere(m: Libm, v: Vec3)
    requires SqrtLaw(m) && NormSq(v) > 0.0
    ensures NormSq(NormalizeVertex(m, v)) == 1.0
  {
    UnitAfterDivide(v, m.sqrt(NormSq(v)));
  }

  lemma UnitAfterDivide(v: Vec3, d: real)
    requires d > 0.0 && Sq(d) == NormSq(v)
    ensures NormSq(DivideBy(v, d)) == 1.0
  {
    var u := DivideBy(v, d);
    assert v.x == u.x * d && v.y == u.y * d && v.z == u.z * d;
    SqOfProduct(u.x, d);
    SqOfProduct(u.y, d);
    SqOfProduct(u.z, d);
    var dd, uu := Sq(d), NormSq(u);
    assert Sq(v.x) == Sq(u.x) * dd && Sq(v.y) == Sq(u.y) * dd && Sq(v.z) == Sq(u.z) * dd;
    assert NormSq(v) == dd * uu;
    SqOfPositive(d);
    CancelPositive(dd, uu);
  }

  /** Normalizing keeps a vector on the same side of any plane through the origin. */
  lemma NormalizeKeepsSide(m: Libm, n: Vec3, v: Vec3)
    requires SqrtLaw(m) && Dot(n, v) > 0.0
    ensures NormSq(v) > 0.0 && Dot(n, NormalizeVertex(m, v)) > 0.0
    ensures NormSq(NormalizeVertex(m, v)) == 1.0
  {
    PositiveSideIsNonzero(n, v);
    NormalizeOnSphere(m, v);
    var d := m.sqrt(NormSq(v));
    var u := DivideBy(v, d);
    assert v.x == u.x * d && v.y == u.y * d && v.z == u.z * d;
    ScaleDot(n, u, d);
    assert Dot(n, u) * d == Dot(n, v);
    if Dot(n, u) <= 0.0 {
      NonpositiveTimesPositive(Dot(n, u), d);
    }
  }

  lemma ScaleDot(n: Vec3, u: Vec3, d: real)
    ensures Dot(n, Vec3(u.x * d, u.y * d, u.z * d)) == Dot(n, u) * d
  {
  }

  lemma NonpositiveTimesPositive(a: real, d: real)
    requires a <= 0.0 && d > 0.0
    ensures a * d <= 0.0
  {
  }

  /** normalizeOnRange (hacks/glx/snowmen.c:489-492). */
  function NormalizeOnRange(value: real, min: real, max: real): real
    requires max != min
  {
    (value - min) / (max - min)
  }

  /** Normalizing is undone by scaling back onto the range: min maps to 0,
      max to 1, and value to the fraction of the way from min to max. */
  lemma NormalizeOnRangeInverse(value: real, min: real, max: real)
    requires max != min
    ensures min + NormalizeOnRange(value, min, max) * (max - min) == value
    ensures NormalizeOnRange(min, min, max) == 0.0 && NormalizeOnRange(max, min, max) == 1.0
  {
    var r := NormalizeOnRange(value, min, max);
    assert r * (max - min) == value - min;
    assert (max - min) / (max - min) == 1.0;
  }

  /** A value inside a non-empty range normalizes into [0, 1]. */
  lemma NormalizeOnRangeInUnit(value: real, min: real, max: real)
    requires min < max && min <= value <= max
    ensures 0.0 <= NormalizeOnRange(value, min, max) <= 1.0
  {
    QuotientInUnit(value - min, max - min);
  }

  lemma QuotientInUnit(a: real, b: real)
    requires 0.0 <= a <= b && b > 0.0
    ensures 0.0 <= a / b <= 1.0
  {
  }

  lemma CancelPositive(a: real, x: real)
    requires a > 0.0 && a * x == a
    ensures x == 1.0
  {
    if x < 1.0 {
      ProductOfPositives(a, 1.0 - x);
    } else if x > 1.0 {
      ProductOfPositives(a, x - 1.0);
    }
  }

  /** A point at angle t on the circle of radius a around the y axis. */
  lemma PolarRadius(m: Libm, a: real, t: real)
    requires TrigLaw(m)
    ensures Sq(a * m.sin(t)) + Sq(a * m.cos(t)) == Sq(a)
  {
    SqOfProduct(a, m.sin(t));
    SqOfProduct(a, m.cos(t));
    assert Sq(a) * Sq(m.sin(t)) + Sq(a) * Sq(m.cos(t)) == Sq(a) * (Sq(m.sin(t)) + Sq(m.cos(t)));
  }

  /** Scaling x and z by k scales the squared distance from the vertical axis by k * k. */
  lemma RadialScale(p: Vec3, k: real, y: real)
    ensures RadialSq(Vec3(p.x * k, y, p.z * k)) == RadialSq(p) * Sq(k)
  {
    SqOfProduct(p.x, k);
    SqOfProduct(p.z, k);
    var a, b, kk := Sq(p.x), Sq(p.z), Sq(k);
    assert a * kk + b * kk == (a + b) * kk;
  }

  /** The point at angle a on the circle of radius r about the vertical
      axis, at height y: sine on x and cosine on z, or the other way round. */
  function OnCircle(m: Libm, r: real, a: real, y: real): Vec3
  {
    Vec3(r * m.sin(a), y, r * m.cos(a))
  }

  function OnCircleCosX(m: Libm, r: real, a: real, y: real): Vec3
  {
    Vec3(r * m.cos(a), y, r * m.sin(a))
  }

  lemma OnCircleRadius(m: Libm, r: real, a: real, y: real)
    requires TrigLaw(m)
    ensures RadialSq(OnCircle(m, r, a, y)) == Sq(r) && RadialSq(OnCircleCosX(m, r, a, y)) == Sq(r)
  {
    PolarRadius(m, r, a);
  }

  /** Rescaling the horizontal direction of p to length radius, with d its
      horizontal length, puts the point on the circle of that radius. */
  lemma RadialRescale(p: Vec3, d: real, radius: real)
    requires d > 0.0 && Sq(d) == RadialSq(p)
    ensures Sq(p.x / d * radius) + Sq(p.z / d * radius) == Sq(radius)
  {
    var ux, uz := p.x / d, p.z / d;
    assert p.x == ux * d && p.z == uz * d;
    SqOfProduct(ux, d);
    SqOfProduct(uz, d);
    var dd, uu := Sq(d), Sq(ux) + Sq(uz);
    assert RadialSq(p) == dd * uu;
    SqOfPositive(d);
    CancelPositive(dd, uu);
    SqOfProduct(ux, radius);
    SqOfProduct(uz, radius);
    assert Sq(ux) * Sq(radius) + Sq(uz) * Sq(radius) == (Sq(ux) + Sq(uz)) * Sq(radius);
  }

  /** sqrtf(x*x + z*z): the horizontal length of p. */
  function Spread(m: Libm, p: Vec3): real
  {
    m.sqrt(RadialSq(p))
  }

  /** p moved along its horizontal direction to distance radius from the
      vertical axis, at height y. */
  function PushedOut(m: Libm, p: Vec3, radius: real, y: real): Vec3
    requires SqrtLaw(m) && RadialSq(p) > 0.0
  {
    var d := Spread(m, p);
    Vec3(p.x / d * radius, y, p.z / d * radius)
  }

  lemma PushedOutOnCircle(m: Libm, p: Vec3, radius: real, y: real)
    requires SqrtLaw(m) && RadialSq(p) > 0.0
    ensures RadialSq(PushedOut(m, p, radius, y)) == Sq(radius)
    ensures PushedOut(m, p, radius, y).y == y
  {
    RadialRescale(p, Spread(m, p), radius);
  }

  /** The square root of a positive number below bound * bound is below bound. */
  lemma SqrtBelow(m: Libm, s: real, bound: real)
    requires SqrtLaw(m) && 0.0 < s < Sq(bound) && bound > 0.0
    ensures 0.0 < m.sqrt(s) < bound
  {
    var d := m.sqrt(s);
    if d >= bound {
      assert false;
    }
  }
}
