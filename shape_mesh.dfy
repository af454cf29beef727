/**
 * `shape/mesh.rs`: triangles that carry their own material key, and `Mesh`, a bounding-volume
 * hierarchy over them. The hierarchy is an external crate and is represented by an oracle over
 * the triangle list; OBJ loading is not part of this model.
 */
module ShapeMesh {
  import opened Util
  import opened Geometry
  import opened Shape

  datatype Triangle = Triangle(v0: Vec3, v1: Vec3, v2: Vec3, materialKey: Key)

  /** `Triangle::new`. */
  function NewTriangle(v0: Vec3, v1: Vec3, v2: Vec3, materialKey: Key): (t: Triangle)
    ensures t.v0 == v0 && t.v1 == v1 && t.v2 == v2 && t.materialKey == materialKey
  {
    Triangle(v0, v1, v2, materialKey)
  }

  /**
   * `Triangle::vec_from`: consecutive vertex triples become triangles, each carrying the given
   * key; a trailing one or two vertices are dropped.
   */
  function VecFrom(vs: seq<Vec3>, materialKey: Key): (ts: seq<Triangle>)
    ensures |ts| == |vs| / 3
    ensures forall i :: 0 <= i < |ts| ==> ts[i] == Triangle(vs[3 * i], vs[3 * i + 1], vs[3 * i + 2], materialKey)
    decreases |vs|
  {
    if |vs| < 3 then [] else [Triangle(vs[0], vs[1], vs[2], materialKey)] + VecFrom(vs[3..], materialKey)
  }

  /** `Triangle::bounds`: the smallest box holding the three vertices. */
  function TriangleBounds(t: Triangle): (b: Bounds)
    ensures ContainsPoint(b, t.v0) && ContainsPoint(b, t.v1) && ContainsPoint(b, t.v2)
    ensures forall c :: ContainsPoint(c, t.v0) && ContainsPoint(c, t.v1) && ContainsPoint(c, t.v2) ==> Encloses(c, b)
  {
    Bounds(Min(Min(t.v0, t.v1), t.v2), Max(Max(t.v0, t.v1), t.v2))
  }

  /**
   * `Triangle::ray_hit`: the determinant, barycentric and time rejections of Möller–Trumbore; an
   * accepted hit lies inside the triangle and the window, faces the ray and carries the
   * triangle's own material key.
   */
  function TriangleRayHit(t: Triangle, ray: Ray, tMin: real, tMax: real, m: Math): (r: Option<(real, HitRecord)>)
    ensures r.Some? <==> TriangleAccepts(t.v0, t.v1, t.v2, ray, tMin, tMax)
    ensures r.Some? ==>
      var time := r.value.0; var rec := r.value.1;
      && time == TriangleTime(t.v0, t.v1, t.v2, ray) && tMin <= time <= tMax
      && rec.u == BaryU(t.v0, t.v1, t.v2, ray) && rec.v == BaryV(t.v0, t.v1, t.v2, ray)
      && 0.0 <= rec.u <= 1.0 && 0.0 <= rec.v && rec.u + rec.v <= 1.0
      && rec.point == ray.At(time)
      && (rec.face, rec.normal) == GetFace(ray, m.normalize(Cross(Sub(t.v1, t.v0), Sub(t.v2, t.v0))))
      && Dot(ray.direction, rec.normal) <= 0.0
      && rec.materialKey == t.materialKey
  {
    var det := Det(t.v0, t.v1, t.v2, ray);
    if Abs(det) < DetEpsilon then None
    else
      var u := BaryU(t.v0, t.v1, t.v2, ray);
      if u < 0.0 || u > 1.0 then None
      else
        var v := BaryV(t.v0, t.v1, t.v2, ray);
        if v < 0.0 || u + v > 1.0 then None
        else
          var time := TriangleTime(t.v0, t.v1, t.v2, ray);
          if time < tMin || tMax < time then None
          else
            var (face, normal) := GetFace(ray, m.normalize(Cross(Sub(t.v1, t.v0), Sub(t.v2, t.v0))));
            Some((time, HitRecord(ray.At(time), normal, u, v, face, t.materialKey)))
  }

  /** The hierarchy's closest-hit query and bounds, as functions of the triangle list. */
  datatype BvhOracle = BvhOracle(
    rayHit: (seq<Triangle>, Ray, real, real) -> Option<(real, HitRecord)>,
    bounds: seq<Triangle> -> Bounds)

  /** `Mesh::new`: the hierarchy built over the triangles. */
  datatype Mesh = Mesh(triangles: seq<Triangle>)

  /** `Mesh::bounds`: exactly the hierarchy's box. */
  function MeshBounds(mesh: Mesh, bvh: BvhOracle): (b: Bounds)
    ensures b == bvh.bounds(mesh.triangles)
  {
    bvh.bounds(mesh.triangles)
  }

  /** `Mesh::ray_hit`: exactly the hierarchy's answer. */
  function MeshRayHit(mesh: Mesh, ray: Ray, tMin: real, tMax: real, bvh: BvhOracle): (r: Option<(real, HitRecord)>)
    ensures r == bvh.rayHit(mesh.triangles, ray, tMin, tMax)
  {
    bvh.rayHit(mesh.triangles, ray, tMin, tMax)
  }

  /** The hierarchy answers only with a hit that one of its triangles reports for the same window. */
  ghost predicate OracleReportsTriangles(bvh: BvhOracle, m: Math) {
    forall ts, ray, tMin, tMax :: bvh.rayHit(ts, ray, tMin, tMax).Some? ==>
      exists i :: 0 <= i < |ts| && TriangleRayHit(ts[i], ray, tMin, tMax, m) == bvh.rayHit(ts, ray, tMin, tMax)
  }

  /** The hierarchy's box encloses every triangle's box. */
  ghost predicate OracleEncloses(bvh: BvhOracle) {
    forall ts, i :: 0 <= i < |ts| ==> Encloses(bvh.bounds(ts), TriangleBounds(ts[i]))
  }

  /**
   * A mesh made by `vec_from` with one key reports, through such a hierarchy, hits that keep that
   * key, lie in the window and in their triangle, and face the ray.
   */
  lemma MeshHitFromVecFrom(vs: seq<Vec3>, key: Key, ray: Ray, tMin: real, tMax: real, bvh: BvhOracle, m: Math)
    requires OracleReportsTriangles(bvh, m)
    ensures var r := MeshRayHit(Mesh(VecFrom(vs, key)), ray, tMin, tMax, bvh);
      r.Some? ==>
        && r.value.1.materialKey == key
        && tMin <= r.value.0 <= tMax
        && 0.0 <= r.value.1.u && 0.0 <= r.value.1.v && r.value.1.u + r.value.1.v <= 1.0
        && Dot(ray.direction, r.value.1.normal) <= 0.0
  {
    var ts := VecFrom(vs, key);
    var r := MeshRayHit(Mesh(ts), ray, tMin, tMax, bvh);
    if r.Some? {
      var i :| 0 <= i < |ts| && TriangleRayHit(ts[i], ray, tMin, tMax, m) == r;
      assert ts[i].materialKey == key;
    }
  }

  /** Through an enclosing hierarchy, every vertex of every triangle of the mesh lies in the mesh's bounds. */
  lemma MeshBoundsHoldVertices(mesh: Mesh, bvh: BvhOracle, i: nat)
    requires OracleEncloses(bvh) && i < |mesh.triangles|
    ensures ContainsPoint(MeshBounds(mesh, bvh), mesh.triangles[i].v0)
    ensures ContainsPoint(MeshBounds(mesh, bvh), mesh.triangles[i].v1)
    ensures ContainsPoint(MeshBounds(mesh, bvh), mesh.triangles[i].v2)
  {
    assert Encloses(bvh.bounds(mesh.triangles), TriangleBounds(mesh.triangles[i]));
  }
}
