/** `shape/mod.rs`: `Primative`, a sphere or a mesh, with constructors, a default and dispatch. */
module ShapePrimative {
  import opened Util
  import opened Geometry
  import opened Shape
  import S = ShapeSphere
  import M = ShapeMesh

  datatype Primative = Sphere(sphere: S.Sphere) | Mesh(mesh: M.Mesh)

  /** `Primative::sphere`. */
  function NewSphere(center: Vec3, radius: real, materialKey: Key): (p: Primative)
    ensures p == Sphere(S.Sphere(center, radius, materialKey))
  {
    Sphere(S.Sphere(center, radius, materialKey))
  }

  /** `Primative::mesh`: the hierarchy over the given triangles, which keep their own keys. */
  function NewMesh(triangles: seq<M.Triangle>): (p: Primative)
    ensures p == Mesh(M.Mesh(triangles))
  {
    Mesh(M.Mesh(triangles))
  }

  /** `Primative::default`: the unit sphere at the origin with the null material key. */
  function Default(): (p: Primative)
    ensures p.Sphere? && p.sphere.center == Origin && p.sphere.radius == 1.0 && p.sphere.materialKey == NullKey
  {
    NewSphere(Origin, 1.0, NullKey)
  }

  /** `Primative::bounds`: the wrapped shape's bounds, unchanged. */
  function PrimativeBounds(p: Primative, bvh: M.BvhOracle): (b: Bounds)
    ensures p.Sphere? ==> b == S.SphereBounds(p.sphere)
    ensures p.Mesh? ==> b == M.MeshBounds(p.mesh, bvh)
  {
    match p
    case Sphere(s) => S.SphereBounds(s)
    case Mesh(mesh) => M.MeshBounds(mesh, bvh)
  }

  /** The sphere's own preconditions: a non-zero direction and radius. */
  predicate HitDefined(p: Primative, ray: Ray) {
    p.Sphere? ==> QuadA(ray) != 0.0 && p.sphere.radius != 0.0
  }

  /** `Primative::ray_hit`: the wrapped shape's answer, unchanged (`map(|t| t)`). */
  function RayHit(p: Primative, ray: Ray, tMin: real, tMax: real, m: Math, bvh: M.BvhOracle): (r: Option<(real, HitRecord)>)
    requires HitDefined(p, ray)
    ensures p.Sphere? ==> r == S.RayHit(p.sphere, ray, tMin, tMax, m)
    ensures p.Mesh? ==> r == M.MeshRayHit(p.mesh, ray, tMin, tMax, bvh)
  {
    match p
    case Sphere(s) => S.RayHit(s, ray, tMin, tMax, m)
    case Mesh(mesh) => M.MeshRayHit(mesh, ray, tMin, tMax, bvh)
  }

  /**
   * Whichever shape is wrapped, a hit lies in the window and its normal opposes the ray, provided
   * the hierarchy only answers with its triangles' own hits.
   */
  lemma RayHitInWindowAndFacing(p: Primative, ray: Ray, tMin: real, tMax: real, m: Math, bvh: M.BvhOracle)
    requires HitDefined(p, ray) && M.OracleReportsTriangles(bvh, m)
    ensures var r := RayHit(p, ray, tMin, tMax, m, bvh);
      r.Some? ==> tMin <= r.value.0 <= tMax && Dot(ray.direction, r.value.1.normal) <= 0.0
  {
    var r := RayHit(p, ray, tMin, tMax, m, bvh);
    if r.Some? && p.Mesh? {
      var ts := p.mesh.triangles;
      var i :| 0 <= i < |ts| && M.TriangleRayHit(ts[i], ray, tMin, tMax, m) == r;
    }
  }

  /** A sphere's hit carries the sphere's own material key. */
  lemma SphereHitKeepsKey(center: Vec3, radius: real, key: Key, ray: Ray, tMin: real, tMax: real, m: Math, bvh: M.BvhOracle)
    requires QuadA(ray) != 0.0 && radius != 0.0
    ensures var r := RayHit(NewSphere(center, radius, key), ray, tMin, tMax, m, bvh);
      r.Some? ==> r.value.1.materialKey == key
  {
  }
}
