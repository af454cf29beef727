/**
 * Vector and ray arithmetic (the `Vec3A`/`Ray` layer), axis-aligned boxes, the
 * transcendental functions the renderer calls, and the intersection terms that both
 * generations of primitives compute the same way.
 */
module Geometry {
  import opened Util

  datatype Vec3 = Vec3(x: real, y: real, z: real)

  const Origin: Vec3 := Vec3(0.0, 0.0, 0.0)

  function Add(a: Vec3, b: Vec3): Vec3 { Vec3(a.x + b.x, a.y + b.y, a.z + b.z) }
  function Sub(a: Vec3, b: Vec3): Vec3 { Vec3(a.x - b.x, a.y - b.y, a.z - b.z) }
  function Neg(a: Vec3): Vec3 { Vec3(-a.x, -a.y, -a.z) }
  function Scale(t: real, a: Vec3): Vec3 { Vec3(t * a.x, t * a.y, t * a.z) }
  function Splat(t: real): Vec3 { Vec3(t, t, t) }
  function Dot(a: Vec3, b: Vec3): real { a.x * b.x + a.y * b.y + a.z * b.z }
  function LengthSquared(a: Vec3): real { Dot(a, a) }
  function Cross(a: Vec3, b: Vec3): Vec3 {
    Vec3(a.y * b.z - a.z * b.y, a.z * b.x - a.x * b.z, a.x * b.y - a.y * b.x)
  }
  /** Componentwise minimum and maximum (`Vec3A::min`, `Vec3A::max`). */
  function Min(a: Vec3, b: Vec3): Vec3 { Vec3(MinR(a.x, b.x), MinR(a.y, b.y), MinR(a.z, b.z)) }
  function Max(a: Vec3, b: Vec3): Vec3 { Vec3(MaxR(a.x, b.x), MaxR(a.y, b.y), MaxR(a.z, b.z)) }

  predicate LeAll(a: Vec3, b: Vec3) { a.x <= b.x && a.y <= b.y && a.z <= b.z }

  lemma DotNeg(a: Vec3, b: Vec3)
    ensures Dot(a, Neg(b)) == -Dot(a, b)
  {
  }

  lemma LengthSquaredNonNegative(a: Vec3)
    ensures LengthSquared(a) >= 0.0
  {
    assert a.x * a.x >= 0.0 && a.y * a.y >= 0.0 && a.z * a.z >= 0.0;
  }

  /** A ray: an origin and a direction. */
  datatype Ray = Ray(origin: Vec3, direction: Vec3) {
    /** `Ray::at`: the point at parameter t. Its offset from the origin is t times the direction. */
    function At(t: real): (p: Vec3)
      ensures Sub(p, origin) == Scale(t, direction)
      ensures t == 0.0 ==> p == origin
    {
      Add(origin, Scale(t, direction))
    }
  }

  /** Moving along a ray is additive: stepping s and then t from the new point reaches the point at s + t. */
  lemma AtAdditive(r: Ray, s: real, t: real)
    ensures Ray(r.At(s), r.direction).At(t) == r.At(s + t)
  {
    assert (s + t) * r.direction.x == s * r.direction.x + t * r.direction.x;
    assert (s + t) * r.direction.y == s * r.direction.y + t * r.direction.y;
    assert (s + t) * r.direction.z == s * r.direction.z + t * r.direction.z;
  }

  /** An axis-aligned bounding box (`BoundingBox`, `Bounds3A`). */
  datatype Bounds = Bounds(min: Vec3, max: Vec3)

  const ZeroBounds: Bounds := Bounds(Origin, Origin)

  /** `outer` encloses `inner` on every axis. */
  predicate Encloses(outer: Bounds, inner: Bounds) {
    LeAll(outer.min, inner.min) && LeAll(inner.max, outer.max)
  }

  predicate ContainsPoint(b: Bounds, p: Vec3) {
    LeAll(b.min, p) && LeAll(p, b.max)
  }

  /** `BoundingBox::union`: the componentwise min of the minima and max of the maxima. */
  function Union(a: Bounds, b: Bounds): (u: Bounds)
    ensures Encloses(u, a) && Encloses(u, b)
    ensures forall c :: Encloses(c, a) && Encloses(c, b) ==> Encloses(c, u)
  {
    Bounds(Min(a.min, b.min), Max(a.max, b.max))
  }

  /**
   * The functions the source takes from the floating-point library. Nothing about them is
   * assumed except what SinBounded and SqrtNonNegative state, and only where a lemma asks for it.
   */
  datatype Math = Math(
    sqrt: real -> real,
    sin: real -> real,
    acos: real -> real,
    atan2: (real, real) -> real,
    powf: (real, real) -> real,
    normalize: Vec3 -> Vec3)

  ghost predicate SinBounded(m: Math) {
    forall t :: -1.0 <= m.sin(t) <= 1.0
  }

  ghost predicate SqrtNonNegative(m: Math) {
    forall t :: 0.0 <= m.sqrt(t)
  }

  /** `std::f64::consts::PI as f32`. */
  const PI: real := 3.1415927

  // Möller–Trumbore terms for the triangle (v0, v1, v2) and a ray; both triangle
  // generations compute exactly these.

  function Det(v0: Vec3, v1: Vec3, v2: Vec3, ray: Ray): real {
    Dot(Sub(v1, v0), Cross(ray.direction, Sub(v2, v0)))
  }

  function BaryU(v0: Vec3, v1: Vec3, v2: Vec3, ray: Ray): real
    requires Det(v0, v1, v2, ray) != 0.0
  {
    Dot(Sub(ray.origin, v0), Cross(ray.direction, Sub(v2, v0))) * (1.0 / Det(v0, v1, v2, ray))
  }

  function BaryV(v0: Vec3, v1: Vec3, v2: Vec3, ray: Ray): real
    requires Det(v0, v1, v2, ray) != 0.0
  {
    Dot(ray.direction, Cross(Sub(ray.origin, v0), Sub(v1, v0))) * (1.0 / Det(v0, v1, v2, ray))
  }

  function TriangleTime(v0: Vec3, v1: Vec3, v2: Vec3, ray: Ray): real
    requires Det(v0, v1, v2, ray) != 0.0
  {
    Dot(Sub(v2, v0), Cross(Sub(ray.origin, v0), Sub(v1, v0))) * (1.0 / Det(v0, v1, v2, ray))
  }

  /** The determinant test of Möller–Trumbore: `|det| < 0.0001` rejects a near-parallel ray. */
  const DetEpsilon: real := 0.0001

  /**
   * The whole acceptance rule of the triangle test: the determinant is not near zero, the
   * barycentric pair lies in the triangle, and the hit time lies in [tMin, tMax].
   */
  predicate TriangleAccepts(v0: Vec3, v1: Vec3, v2: Vec3, ray: Ray, tMin: real, tMax: real) {
    Abs(Det(v0, v1, v2, ray)) >= DetEpsilon
    && 0.0 <= BaryU(v0, v1, v2, ray) <= 1.0
    && 0.0 <= BaryV(v0, v1, v2, ray)
    && BaryU(v0, v1, v2, ray) + BaryV(v0, v1, v2, ray) <= 1.0
    && tMin <= TriangleTime(v0, v1, v2, ray) <= tMax
  }

  // The quadratic |origin + t*direction - center|^2 = radius^2, in the half-b form the
  // sphere tests use.

  function QuadA(ray: Ray): real { LengthSquared(ray.direction) }
  function HalfB(center: Vec3, ray: Ray): real { Dot(Sub(ray.origin, center), ray.direction) }
  function QuadC(center: Vec3, radius: real, ray: Ray): real {
    LengthSquared(Sub(ray.origin, center)) - radius * radius
  }
  function Disc(center: Vec3, radius: real, ray: Ray): real {
    HalfB(center, ray) * HalfB(center, ray) - QuadA(ray) * QuadC(center, radius, ray)
  }

  /** The near root `(-half_b - sqrtd) / a`. */
  function NearRoot(center: Vec3, radius: real, ray: Ray, m: Math): real
    requires QuadA(ray) != 0.0
  {
    (-HalfB(center, ray) - m.sqrt(Disc(center, radius, ray))) / QuadA(ray)
  }

  /** The far root `(-half_b + sqrtd) / a`. */
  function FarRoot(center: Vec3, radius: real, ray: Ray, m: Math): real
    requires QuadA(ray) != 0.0
  {
    (-HalfB(center, ray) + m.sqrt(Disc(center, radius, ray))) / QuadA(ray)
  }

  predicate InRange(t: real, tMin: real, tMax: real) { tMin <= t && t <= tMax }

  /** With a non-negative square root the near root never exceeds the far root. */
  lemma NearRootFirst(center: Vec3, radius: real, ray: Ray, m: Math)
    requires QuadA(ray) != 0.0
    requires SqrtNonNegative(m)
    ensures NearRoot(center, radius, ray, m) <= FarRoot(center, radius, ray, m)
  {
    LengthSquaredNonNegative(ray.direction);
    var a := QuadA(ray);
    var hb := HalfB(center, ray);
    var s := m.sqrt(Disc(center, radius, ray));
    assert s >= 0.0;
    assert (-hb - s) / a <= (-hb + s) / a by {
      assert a > 0.0;
      assert (-hb + s) / a - (-hb - s) / a == (2.0 * s) / a;
    }
  }
}
