/**
 * The shared part of the second generation of primitives (`shape/mod.rs`): the `Face` a ray
 * meets and the hit record that carries it in place of a boolean flag.
 */
module Shape {
  import opened Util
  import opened Geometry

  datatype Face = Front | Back

  datatype HitRecord = HitRecord(point: Vec3, normal: Vec3, u: real, v: real, face: Face, materialKey: Key)

  /**
   * `get_face`: Front with the normal unchanged exactly when the ray runs against it, otherwise
   * Back with the normal reversed; either way the returned normal opposes the ray.
   */
  function GetFace(ray: Ray, normal: Vec3): (res: (Face, Vec3))
    ensures res.0 == Front <==> Dot(ray.direction, normal) < 0.0
    ensures res.1 == if res.0 == Front then normal else Neg(normal)
    ensures Dot(ray.direction, res.1) <= 0.0
  {
    DotNeg(ray.direction, normal);
    if Dot(ray.direction, normal) < 0.0 then (Front, normal) else (Back, Neg(normal))
  }

  /** Reversing the normal swaps the face, except on the boundary where the ray grazes the surface. */
  lemma GetFaceOfReversedNormal(ray: Ray, normal: Vec3)
    requires Dot(ray.direction, normal) != 0.0
    ensures GetFace(ray, Neg(normal)).0 != GetFace(ray, normal).0
    ensures GetFace(ray, Neg(normal)).1 == GetFace(ray, normal).1
  {
    DotNeg(ray.direction, normal);
    assert Neg(Neg(normal)) == normal;
  }
}
