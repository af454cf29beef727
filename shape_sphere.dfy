/** `shape/sphere.rs`: a sphere that carries its own material key. */
module ShapeSphere {
  import opened Util
  import opened Geometry
  import opened Shape

  datatype Sphere = Sphere(center: Vec3, radius: real, materialKey: Key)

  /** `Sphere::bounds`: `center - radius` to `center + radius` on every axis. */
  function SphereBounds(s: Sphere): (b: Bounds)
    ensures b.min == Vec3(s.center.x - s.radius, s.center.y - s.radius, s.center.z - s.radius)
    ensures b.max == Vec3(s.center.x + s.radius, s.center.y + s.radius, s.center.z + s.radius)
  {
    Bounds(Sub(s.center, Splat(s.radius)), Add(s.center, Splat(s.radius)))
  }

  /** A sphere of non-negative radius has its centre inside its bounds. */
  lemma CenterInBounds(s: Sphere)
    requires s.radius >= 0.0
    ensures ContainsPoint(SphereBounds(s), s.center)
  {
  }

  /** The root kept: the near one when it lies in the window, otherwise the far one. */
  function Root(s: Sphere, ray: Ray, tMin: real, tMax: real, m: Math): real
    requires QuadA(ray) != 0.0
  {
    var near := NearRoot(s.center, s.radius, ray, m);
    if near < tMin || tMax < near then FarRoot(s.center, s.radius, ray, m) else near
  }

  /**
   * `Sphere::ray_hit`. A zero direction or a zero radius divides by zero in f32 and is excluded.
   * A negative discriminant misses. The near root is preferred and the far root is the fallback;
   * the hit is reported only at a root inside [tMin, tMax], at the point `ray.at(root)`, with the
   * face rule applied to the outward normal and the sphere's own material key.
   */
  function RayHit(s: Sphere, ray: Ray, tMin: real, tMax: real, m: Math): (r: Option<(real, HitRecord)>)
    requires QuadA(ray) != 0.0 && s.radius != 0.0
    ensures Disc(s.center, s.radius, ray) < 0.0 ==> r.None?
    ensures r.Some? <==> Disc(s.center, s.radius, ray) >= 0.0
                          && (InRange(NearRoot(s.center, s.radius, ray, m), tMin, tMax)
                              || InRange(FarRoot(s.center, s.radius, ray, m), tMin, tMax))
    ensures r.Some? ==>
      var root := r.value.0; var rec := r.value.1;
      var outward := Scale(1.0 / s.radius, Sub(rec.point, s.center));
      && root == Root(s, ray, tMin, tMax, m)
      && (InRange(NearRoot(s.center, s.radius, ray, m), tMin, tMax) ==> root == NearRoot(s.center, s.radius, ray, m))
      && InRange(root, tMin, tMax)
      && rec.point == ray.At(root)
      && (rec.face, rec.normal) == GetFace(ray, outward)
      && Dot(ray.direction, rec.normal) <= 0.0
      && rec.materialKey == s.materialKey
  {
    var disc := Disc(s.center, s.radius, ray);
    if disc < 0.0 then None
    else
      var root := Root(s, ray, tMin, tMax, m);
      if root < tMin || tMax < root then None
      else
        var point := ray.At(root);
        var (face, normal) := GetFace(ray, Scale(1.0 / s.radius, Sub(point, s.center)));
        var theta := -m.acos(normal.y);
        var phi := -m.atan2(normal.z, normal.x) + PI;
        Some((root, HitRecord(point, normal, phi / (2.0 * PI), theta / PI, face, s.materialKey)))
  }

  /** With a non-negative square root, a hit at the far root means the near root was outside the window. */
  lemma FarRootOnlyAsFallback(s: Sphere, ray: Ray, tMin: real, tMax: real, m: Math)
    requires QuadA(ray) != 0.0 && s.radius != 0.0
    requires RayHit(s, ray, tMin, tMax, m).Some?
    requires RayHit(s, ray, tMin, tMax, m).value.0 != NearRoot(s.center, s.radius, ray, m)
    ensures !InRange(NearRoot(s.center, s.radius, ray, m), tMin, tMax)
    ensures RayHit(s, ray, tMin, tMax, m).value.0 == FarRoot(s.center, s.radius, ray, m)
  {
  }

  /** When both roots lie in the window, the hit is at the nearer one, which is the smaller. */
  lemma NearerRootWins(s: Sphere, ray: Ray, tMin: real, tMax: real, m: Math)
    requires QuadA(ray) != 0.0 && s.radius != 0.0 && SqrtNonNegative(m)
    requires Disc(s.center, s.radius, ray) >= 0.0
    requires InRange(NearRoot(s.center, s.radius, ray, m), tMin, tMax)
    ensures RayHit(s, ray, tMin, tMax, m).Some?
    ensures RayHit(s, ray, tMin, tMax, m).value.0 <= FarRoot(s.center, s.radius, ray, m)
  {
    NearRootFirst(s.center, s.radius, ray, m);
  }
}
