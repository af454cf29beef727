/**
 * The first generation of primitives: `HitRecord` with a `front_face` flag, `Triangle` with
 * Möller–Trumbore intersection, and `Primative` (sphere or triangle mesh) whose hits carry the
 * primitive's material key. The mesh's bounding-volume hierarchy is an external crate and is
 * represented by an oracle over the triangle list.
 */
module Primative {
  import opened Util
  import opened Geometry

  datatype HitRecord = HitRecord(point: Vec3, normal: Vec3, u: real, v: real, frontFace: bool, materialKey: Key)

  datatype Triangle = Triangle(v0: Vec3, v1: Vec3, v2: Vec3)

  /**
   * `Triangle::vec_from`: consecutive vertex triples become triangles (`chunks_exact(3)`);
   * a trailing one or two vertices are dropped.
   */
  function VecFrom(vs: seq<Vec3>): (ts: seq<Triangle>)
    ensures |ts| == |vs| / 3
    ensures forall i :: 0 <= i < |ts| ==> ts[i] == Triangle(vs[3 * i], vs[3 * i + 1], vs[3 * i + 2])
    decreases |vs|
  {
    if |vs| < 3 then [] else [Triangle(vs[0], vs[1], vs[2])] + VecFrom(vs[3..])
  }

  /** `Triangle::bounds`: the smallest box holding the three vertices. */
  function TriangleBounds(t: Triangle): (b: Bounds)
    ensures ContainsPoint(b, t.v0) && ContainsPoint(b, t.v1) && ContainsPoint(b, t.v2)
    ensures forall c :: ContainsPoint(c, t.v0) && ContainsPoint(c, t.v1) && ContainsPoint(c, t.v2) ==> Encloses(c, b)
  {
    Geometry.Bounds(Min(Min(t.v0, t.v1), t.v2), Max(Max(t.v0, t.v1), t.v2))
  }

  /**
   * `set_front_face`: the ray meets the front of the surface iff it runs against the outward
   * normal; the normal returned always opposes the ray.
   */
  function SetFrontFace(r: Ray, outward: Vec3): (res: (Vec3, bool))
    ensures res.1 <==> Dot(r.direction, outward) < 0.0
    ensures res.0 == if res.1 then outward else Neg(outward)
    ensures Dot(r.direction, res.0) <= 0.0
  {
    DotNeg(r.direction, outward);
    var frontFace := Dot(r.direction, outward) < 0.0;
    if frontFace then (outward, frontFace) else (Neg(outward), frontFace)
  }

  /** `Triangle::ray_hit`. A hit's material key is the null key; `Primative::ray_hit` overwrites it. */
  function TriangleRayHit(t: Triangle, ray: Ray, tMin: real, tMax: real, m: Math): (r: Option<(real, HitRecord)>)
    ensures r.Some? <==> TriangleAccepts(t.v0, t.v1, t.v2, ray, tMin, tMax)
    ensures r.Some? ==>
      var time := r.value.0; var rec := r.value.1;
      && time == TriangleTime(t.v0, t.v1, t.v2, ray) && tMin <= time <= tMax
      && rec.u == BaryU(t.v0, t.v1, t.v2, ray) && rec.v == BaryV(t.v0, t.v1, t.v2, ray)
      && 0.0 <= rec.u <= 1.0 && 0.0 <= rec.v && rec.u + rec.v <= 1.0
      && rec.point == ray.At(time)
      && Dot(ray.direction, rec.normal) <= 0.0
      && (rec.normal, rec.frontFace) == SetFrontFace(ray, m.normalize(Cross(Sub(t.v1, t.v0), Sub(t.v2, t.v0))))
      && rec.materialKey == NullKey
  {
    var det := Det(t.v0, t.v1, t.v2, ray);
    if Abs(det) < DetEpsilon then None
    else
      var u := BaryU(t.v0, t.v1, t.v2, ray);
      if u < 0.0 || u > 1.0 then None
      else
        var v := BaryV(t.v0, t.v1, t.v2, ray);
        if v < 0.0 || u + v > 1.0 then None
        else
          var time := TriangleTime(t.v0, t.v1, t.v2, ray);
          if time < tMin || tMax < time then None
          else
            var n := m.normalize(Cross(Sub(t.v1, t.v0), Sub(t.v2, t.v0)));
            var (normal, frontFace) := SetFrontFace(ray, n);
            Some((time, HitRecord(ray.At(time), normal, u, v, frontFace, NullKey)))
  }

  /** A near-parallel ray (|det| below 0.0001) never hits, whatever the window. */
  lemma ParallelRayMisses(t: Triangle, ray: Ray, tMin: real, tMax: real, m: Math)
    requires Abs(Det(t.v0, t.v1, t.v2, ray)) < DetEpsilon
    ensures TriangleRayHit(t, ray, tMin, tMax, m).None?
  {
  }

  /** `sphere_uv`: spherical coordinates of the unit normal, scaled to [0, 1] when acos and atan2 are exact. */
  function SphereUv(normal: Vec3, m: Math): (real, real) {
    var theta := -m.acos(normal.y);
    var phi := -m.atan2(normal.z, normal.x) + PI;
    (phi / (2.0 * PI), theta / PI)
  }

  /**
   * With `acos` in [0, π] and `atan2` in [-π, π], u lies in [0, 1] and, because theta is the
   * negated arc cosine, v lies in [-1, 0].
   */
  lemma SphereUvRange(normal: Vec3, m: Math)
    requires 0.0 <= m.acos(normal.y) <= PI
    requires -PI <= m.atan2(normal.z, normal.x) <= PI
    ensures 0.0 <= SphereUv(normal, m).0 <= 1.0
    ensures -1.0 <= SphereUv(normal, m).1 <= 0.0
  {
  }

  /** The root `sphere_hit` keeps: the near one when it is in the window, otherwise the far one. */
  function SphereRoot(center: Vec3, radius: real, ray: Ray, m: Math, tMin: real, tMax: real): real
    requires QuadA(ray) != 0.0
  {
    var near := NearRoot(center, radius, ray, m);
    if near < tMin || tMax < near then FarRoot(center, radius, ray, m) else near
  }

  /**
   * `sphere_hit`. A zero direction (a == 0) or a zero radius divides by zero in f32 and is
   * excluded. A negative discriminant misses; otherwise the near root is taken when it lies in
   * [tMin, tMax], else the far root when it does, else the ray misses.
   */
  function SphereHit(center: Vec3, radius: real, ray: Ray, tMin: real, tMax: real, m: Math): (r: Option<(real, HitRecord)>)
    requires QuadA(ray) != 0.0 && radius != 0.0
    ensures Disc(center, radius, ray) < 0.0 ==> r.None?
    ensures r.Some? <==> Disc(center, radius, ray) >= 0.0
                          && (InRange(NearRoot(center, radius, ray, m), tMin, tMax)
                              || InRange(FarRoot(center, radius, ray, m), tMin, tMax))
    ensures r.Some? ==>
      var root := r.value.0; var rec := r.value.1;
      && root == SphereRoot(center, radius, ray, m, tMin, tMax)
      && (InRange(NearRoot(center, radius, ray, m), tMin, tMax) ==> root == NearRoot(center, radius, ray, m))
      && InRange(root, tMin, tMax)
      && rec.point == ray.At(root)
      && Dot(ray.direction, rec.normal) <= 0.0
      && (rec.frontFace <==> Dot(ray.direction, Scale(1.0 / radius, Sub(rec.point, center))) < 0.0)
      && (rec.normal, rec.frontFace) == SetFrontFace(ray, Scale(1.0 / radius, Sub(rec.point, center)))
      && rec.materialKey == NullKey
  {
    var disc := Disc(center, radius, ray);
    if disc < 0.0 then None
    else
      var root := SphereRoot(center, radius, ray, m, tMin, tMax);
      if root < tMin || tMax < root then None
      else
        var point := ray.At(root);
        var outward := Scale(1.0 / radius, Sub(point, center));
        var (normal, frontFace) := SetFrontFace(ray, outward);
        var (u, v) := SphereUv(normal, m);
        Some((root, HitRecord(point, normal, u, v, frontFace, NullKey)))
  }

  /**
   * The hierarchy over a mesh's triangles (`Bvh3A<Triangle>`), which is not part of this model:
   * its closest-hit query and its bounds are given as functions of the triangle list.
   */
  datatype BvhOracle = BvhOracle(
    rayHit: (seq<Triangle>, Ray, real, real) -> Option<(real, HitRecord)>,
    bounds: seq<Triangle> -> Bounds)

  /** `Bvh3A::build` keeps the triangles; the oracle answers the queries over them. */
  datatype Primative =
    | Sphere(center: Vec3, radius: real, materialKey: Key)
    | Mesh(triangles: seq<Triangle>, materialKey: Key)

  /** `Primative::default`: the unit sphere at the origin with the null material key. */
  function Default(): (p: Primative)
    ensures p.Sphere? && p.center == Origin && p.radius == 1.0 && p.materialKey == NullKey
  {
    Sphere(Origin, 1.0, NullKey)
  }

  /** `Primative::bounds`: `center ± radius` on each axis for a sphere, the hierarchy's box for a mesh. */
  function PrimativeBounds(p: Primative, bvh: BvhOracle): (b: Bounds)
    ensures p.Sphere? ==> b == Geometry.Bounds(Sub(p.center, Splat(p.radius)), Add(p.center, Splat(p.radius)))
    ensures p.Mesh? ==> b == bvh.bounds(p.triangles)
  {
    match p
    case Sphere(center, radius, _) => Geometry.Bounds(Sub(center, Splat(radius)), Add(center, Splat(radius)))
    case Mesh(triangles, _) => bvh.bounds(triangles)
  }

  /** Every point of a sphere of non-negative radius, its surface included, lies in its bounds. */
  lemma SphereBoundsHoldBall(center: Vec3, radius: real, q: Vec3, bvh: BvhOracle)
    requires radius >= 0.0 && LengthSquared(Sub(q, center)) <= radius * radius
    ensures ContainsPoint(PrimativeBounds(Sphere(center, radius, NullKey), bvh), q)
  {
    var d := Sub(q, center);
    assert d.x * d.x >= 0.0 && d.y * d.y >= 0.0 && d.z * d.z >= 0.0;
    CoordinateWithinRadius(d.x, radius);
    CoordinateWithinRadius(d.y, radius);
    CoordinateWithinRadius(d.z, radius);
  }

  lemma MulPositive(p: real, q: real)
    requires p > 0.0 && q > 0.0
    ensures p * q > 0.0
  {
  }

  lemma SquareGrows(a: real, b: real)
    requires 0.0 <= b < a
    ensures b * b < a * a
  {
    MulPositive(a - b, a + b);
    assert (a - b) * (a + b) == a * a - b * b;
  }

  /** A coordinate whose square is at most radius squared lies within [-radius, radius]. */
  lemma CoordinateWithinRadius(x: real, radius: real)
    requires radius >= 0.0 && x * x <= radius * radius
    ensures -radius <= x <= radius
  {
    var ax := Abs(x);
    assert ax * ax == x * x;
    if radius < ax {
      SquareGrows(ax, radius);
    }
  }

  /** The hit a primitive reports before its material key is stamped on. */
  function InnerHit(p: Primative, ray: Ray, tMin: real, tMax: real, m: Math, bvh: BvhOracle): Option<(real, HitRecord)>
    requires p.Sphere? ==> QuadA(ray) != 0.0 && p.radius != 0.0
  {
    match p
    case Sphere(center, radius, _) => SphereHit(center, radius, ray, tMin, tMax, m)
    case Mesh(triangles, _) => bvh.rayHit(triangles, ray, tMin, tMax)
  }

  /**
   * `Primative::ray_hit`: the sphere test or the hierarchy's answer, with the record's material
   * key replaced by the primitive's own and the time and every other field left as they were.
   */
  function RayHit(p: Primative, ray: Ray, tMin: real, tMax: real, m: Math, bvh: BvhOracle): (r: Option<(real, HitRecord)>)
    requires p.Sphere? ==> QuadA(ray) != 0.0 && p.radius != 0.0
    ensures var inner := InnerHit(p, ray, tMin, tMax, m, bvh);
      && (r.Some? <==> inner.Some?)
      && (r.Some? ==> r.value.0 == inner.value.0 && r.value.1 == inner.value.1.(materialKey := p.materialKey))
    ensures r.Some? ==> r.value.1.materialKey == p.materialKey
  {
    match InnerHit(p, ray, tMin, tMax, m, bvh)
    case None => None
    case Some((time, rec)) => Some((time, rec.(materialKey := p.materialKey)))
  }

  /** The hierarchy only reports hits inside the window it was asked about. */
  ghost predicate OracleInWindow(bvh: BvhOracle) {
    forall ts, ray, tMin, tMax :: bvh.rayHit(ts, ray, tMin, tMax).Some? ==>
      tMin <= bvh.rayHit(ts, ray, tMin, tMax).value.0 <= tMax
  }

  /** A primitive's hit always lies in the window: the sphere's by its root choice, the mesh's by the hierarchy. */
  lemma RayHitInWindow(p: Primative, ray: Ray, tMin: real, tMax: real, m: Math, bvh: BvhOracle)
    requires p.Sphere? ==> QuadA(ray) != 0.0 && p.radius != 0.0
    requires OracleInWindow(bvh)
    ensures RayHit(p, ray, tMin, tMax, m, bvh).Some? ==> tMin <= RayHit(p, ray, tMin, tMax, m, bvh).value.0 <= tMax
  {
  }
}
