/**
 * `Material`: scattering and emission for Lambertian, metal, dielectric and light surfaces.
 * Texture colours come from the texture map with the magenta fallback of `Texture.Lookup`.
 *
 * Randomness is the float stream `draws` read from position `pos`: `sample_unit_sphere` takes
 * three draws (one `Vec3A`), the dielectric's Schlick test takes one; every scatter function
 * returns the position after its draws.
 */
module Material {
  import opened Util
  import opened Geometry
  import Image
  import Texture
  import Primative

  datatype Material =
    | Lambertian(albedo: Key)
    | Metal(albedo: Key, fuzz: real)
    | Dielectric(ir: real)
    | DiffuseLight(emit: Key)

  datatype ScatterResult = Scattered(rayOut: Ray, color: Image.Rgba) | Absorbed

  /** `Material::default`: Lambertian over the null texture key, so its albedo is magenta. */
  function Default(): (mat: Material)
    ensures mat.Lambertian? && mat.albedo == NullKey
  {
    Lambertian(NullKey)
  }

  /** `near_zero`'s threshold `ETA`. */
  const NearZeroEta: real := 0.00000001

  /** `near_zero`: every component has magnitude below 1e-8. */
  predicate NearZero(v: Vec3) {
    Abs(v.x) < NearZeroEta && Abs(v.y) < NearZeroEta && Abs(v.z) < NearZeroEta
  }

  /** A near-zero vector is shorter than `ETA` in every direction: its squared length is below 3·ETA². */
  lemma NearZeroIsShort(v: Vec3)
    requires NearZero(v)
    ensures LengthSquared(v) < 3.0 * NearZeroEta * NearZeroEta
  {
    SquareBelow(v.x, NearZeroEta);
    SquareBelow(v.y, NearZeroEta);
    SquareBelow(v.z, NearZeroEta);
  }

  lemma SquareBelow(a: real, eta: real)
    requires Abs(a) < eta
    ensures a * a < eta * eta
  {
    var b := Abs(a);
    var lo, hi := eta - b, eta + b;
    assert lo > 0.0 && hi > 0.0;
    PositiveProduct(lo, hi);
    assert eta * eta - b * b == lo * hi;
    assert a * a == b * b;
  }

  lemma PositiveProduct(x: real, y: real)
    requires x > 0.0 && y > 0.0
    ensures x * y > 0.0
  {
  }

  /** `sample_unit_sphere`: three draws, recentred on the origin and normalised. */
  function SampleUnitSphere(draws: nat -> real, pos: nat, m: Math): Vec3 {
    m.normalize(Sub(Vec3(draws(pos), draws(pos + 1), draws(pos + 2)), Splat(0.5)))
  }

  /** The sample reads exactly the three draws at pos, pos + 1 and pos + 2. */
  lemma SampleUnitSphereReadsThreeDraws(d1: nat -> real, d2: nat -> real, pos: nat, m: Math)
    requires d1(pos) == d2(pos) && d1(pos + 1) == d2(pos + 1) && d1(pos + 2) == d2(pos + 2)
    ensures SampleUnitSphere(d1, pos, m) == SampleUnitSphere(d2, pos, m)
  {
  }

  /** `reflect`: v minus twice its component along n. */
  function Reflect(v: Vec3, n: Vec3): (r: Vec3)
    ensures Add(r, Scale(2.0 * Dot(v, n), n)) == v
  {
    Sub(v, Scale(2.0 * Dot(v, n), n))
  }

  lemma DotSubScale(v: Vec3, k: real, n: Vec3)
    ensures Dot(Sub(v, Scale(k, n)), n) == Dot(v, n) - k * Dot(n, n)
  {
    assert (v.x - k * n.x) * n.x == v.x * n.x - k * (n.x * n.x);
    assert (v.y - k * n.y) * n.y == v.y * n.y - k * (n.y * n.y);
    assert (v.z - k * n.z) * n.z == v.z * n.z - k * (n.z * n.z);
  }

  /** For a unit normal, reflection negates the component along the normal. */
  lemma ReflectNegatesNormalComponent(v: Vec3, n: Vec3)
    requires LengthSquared(n) == 1.0
    ensures Dot(Reflect(v, n), n) == -Dot(v, n)
  {
    DotSubScale(v, 2.0 * Dot(v, n), n);
  }

  /** For a unit normal, reflecting twice gives back the original vector. */
  lemma ReflectInvolutive(v: Vec3, n: Vec3)
    requires LengthSquared(n) == 1.0
    ensures Reflect(Reflect(v, n), n) == v
  {
    ReflectNegatesNormalComponent(v, n);
    var d := Dot(v, n);
    var r := Reflect(v, n);
    assert Dot(r, n) == -d;
    assert 2.0 * Dot(r, n) == -(2.0 * d);
    assert Scale(2.0 * Dot(r, n), n) == Neg(Scale(2.0 * d, n));
  }

  /** `refract`: the perpendicular part scaled by eta plus the parallel part that makes a unit vector. */
  function Refract(v: Vec3, n: Vec3, eta: real, m: Math): Vec3 {
    var cosTheta := MinR(Dot(Neg(v), n), 1.0);
    var perp := Scale(eta, Add(v, Scale(cosTheta, n)));
    var parallel := Scale(-m.sqrt(Abs(1.0 - LengthSquared(perp))), n);
    Add(perp, parallel)
  }

  /** The part of w perpendicular to the normal n. */
  function Tangent(w: Vec3, n: Vec3): Vec3 {
    Sub(w, Scale(Dot(w, n), n))
  }

  /**
   * Snell's law in vector form: for a unit normal, the refracted ray's component along the
   * surface is eta times the incident one's, whatever the square root gives for the normal part.
   */
  lemma RefractScalesTangent(v: Vec3, n: Vec3, eta: real, m: Math)
    requires Dot(n, n) == 1.0
    ensures Tangent(Refract(v, n, eta, m), n) == Scale(eta, Tangent(v, n))
  {
    var c := MinR(Dot(Neg(v), n), 1.0);
    var perp := Scale(eta, Add(v, Scale(c, n)));
    TangentDropsNormalParts(v, n, eta, c, -m.sqrt(Abs(1.0 - LengthSquared(perp))));
  }

  /** Adding multiples of a unit normal to v, then scaling, changes the tangent only by the scale. */
  lemma TangentDropsNormalParts(v: Vec3, n: Vec3, eta: real, c: real, k: real)
    requires Dot(n, n) == 1.0
    ensures Tangent(Add(Scale(eta, Add(v, Scale(c, n))), Scale(k, n)), n) == Scale(eta, Tangent(v, n))
  {
    TangentOfSum(Scale(eta, Add(v, Scale(c, n))), Scale(k, n), n);
    TangentOfNormal(k, n);
    TangentOfScaled(eta, Add(v, Scale(c, n)), n);
    TangentOfSum(v, Scale(c, n), n);
    TangentOfNormal(c, n);
  }

  lemma TangentOfSum(a: Vec3, b: Vec3, n: Vec3)
    ensures Tangent(Add(a, b), n) == Add(Tangent(a, n), Tangent(b, n))
  {
    var da, db := Dot(a, n), Dot(b, n);
    DotAdd(a, b, n);
    ScaleDistributes(da, db, n);
    assert Tangent(Add(a, b), n) == Sub(Add(a, b), Add(Scale(da, n), Scale(db, n)));
  }

  lemma ScaleDistributes(s: real, t: real, n: Vec3)
    ensures Scale(s + t, n) == Add(Scale(s, n), Scale(t, n))
  {
  }

  lemma TangentOfScaled(t: real, a: Vec3, n: Vec3)
    ensures Tangent(Scale(t, a), n) == Scale(t, Tangent(a, n))
  {
    var d := Dot(a, n);
    DotLinear(t, a, n);
    ScaleAssociates(t, d, n);
    var td := Dot(Scale(t, a), n);
    assert td == t * d;
    assert Scale(td, n) == Scale(t, Scale(d, n));
    assert Tangent(Scale(t, a), n) == Sub(Scale(t, a), Scale(td, n));
    ScaleOfDifference(t, a, Scale(d, n));
  }

  lemma ScaleOfDifference(t: real, x: Vec3, y: Vec3)
    ensures Scale(t, Sub(x, y)) == Sub(Scale(t, x), Scale(t, y))
  {
  }

  lemma ScaleAssociates(s: real, t: real, n: Vec3)
    ensures Scale(s * t, n) == Scale(s, Scale(t, n))
  {
  }

  lemma TangentOfNormal(k: real, n: Vec3)
    requires Dot(n, n) == 1.0
    ensures Tangent(Scale(k, n), n) == Origin
  {
    DotLinear(k, n, n);
  }

  lemma DotLinear(t: real, a: Vec3, b: Vec3)
    ensures Dot(Scale(t, a), b) == t * Dot(a, b)
  {
  }

  lemma DotAdd(a: Vec3, b: Vec3, c: Vec3)
    ensures Dot(Add(a, b), c) == Dot(a, c) + Dot(b, c)
  {
  }


  /** `powi(5)`. */
  function Pow5(x: real): real { x * x * x * x * x }

  /** The reflectance at normal incidence, `((1 - r) / (1 + r))^2`. */
  function R0(refIdx: real): real
    requires refIdx != -1.0
  {
    ((1.0 - refIdx) / (1.0 + refIdx)) * ((1.0 - refIdx) / (1.0 + refIdx))
  }

  /** `reflectance`: Schlick's approximation. An index of -1 divides by zero in f32 and is excluded. */
  function Reflectance(cosine: real, refIdx: real): (r: real)
    requires refIdx != -1.0
    ensures r == R0(refIdx) + (1.0 - R0(refIdx)) * Pow5(1.0 - cosine)
  {
    var r0 := (1.0 - refIdx) / (1.0 + refIdx);
    var r0sq := r0 * r0;
    r0sq + (1.0 - r0sq) * Pow5(1.0 - cosine)
  }

  /** At normal incidence (cosine 1) Schlick's approximation is exactly `((1 - r) / (1 + r))^2`. */
  lemma ReflectanceAtNormalIncidence(refIdx: real)
    requires refIdx != -1.0
    ensures Reflectance(1.0, refIdx) == R0(refIdx)
  {
    assert Pow5(1.0 - 1.0) == 0.0;
  }

  lemma UnitProduct(a: real, b: real)
    requires 0.0 <= a <= 1.0 && 0.0 <= b <= 1.0
    ensures 0.0 <= a * b <= b
  {
  }

  lemma Pow5InUnitRange(t: real)
    requires 0.0 <= t <= 1.0
    ensures 0.0 <= Pow5(t) <= 1.0
  {
    UnitProduct(t, t);
    UnitProduct(t, t * t);
    UnitProduct(t, t * t * t);
    UnitProduct(t, t * t * t * t);
    assert Pow5(t) == t * (t * t * t * t);
  }

  lemma R0InUnitRange(refIdx: real)
    requires refIdx >= 0.0
    ensures 0.0 <= R0(refIdx) <= 1.0
  {
    var r := (1.0 - refIdx) / (1.0 + refIdx);
    assert -1.0 <= r <= 1.0 by {
      assert r * (1.0 + refIdx) == 1.0 - refIdx;
    }
    assert R0(refIdx) == r * r;
    CoordinateSquare(r);
  }

  lemma CoordinateSquare(r: real)
    requires -1.0 <= r <= 1.0
    ensures 0.0 <= r * r <= 1.0
  {
    var a := Abs(r);
    assert a * a == r * r;
    UnitProduct(a, a);
  }

  /**
   * For a non-negative index and a cosine in [0, 1], the reflectance is a probability no smaller
   * than its normal-incidence value.
   */
  lemma ReflectanceBounds(cosine: real, refIdx: real)
    requires 0.0 <= cosine <= 1.0 && refIdx >= 0.0
    ensures R0(refIdx) <= Reflectance(cosine, refIdx) <= 1.0
  {
    R0InUnitRange(refIdx);
    Pow5InUnitRange(1.0 - cosine);
    UnitProduct(1.0 - R0(refIdx), Pow5(1.0 - cosine));
    UnitProduct(Pow5(1.0 - cosine), 1.0 - R0(refIdx));
  }

  /** The colour a texture key gives at the hit, magenta for a key absent from the map. */
  function Albedo(key: Key, rec: Primative.HitRecord, tm: Texture.TextureMap, m: Math): Image.Rgba
    requires Texture.MapOk(tm)
  {
    Texture.Lookup(key, rec.u, rec.v, rec.point, tm, m)
  }

  /**
   * `lambertian_scatter`: always scatters from the hit point along the normal plus a unit-sphere
   * sample, falling back to the normal alone when that sum is near zero.
   */
  function LambertianScatter(albedo: Key, rec: Primative.HitRecord, tm: Texture.TextureMap, m: Math,
                             draws: nat -> real, pos: nat): (res: (ScatterResult, nat))
    requires Texture.MapOk(tm)
    ensures res.0.Scattered? && res.0.rayOut.origin == rec.point && res.1 == pos + 3
    ensures res.0.color == Albedo(albedo, rec, tm, m)
    ensures var sum := Add(rec.normal, SampleUnitSphere(draws, pos, m));
      res.0.rayOut.direction == (if NearZero(sum) then rec.normal else sum)
    ensures !NearZero(rec.normal) ==> !NearZero(res.0.rayOut.direction)
  {
    var scatterDir := Add(rec.normal, SampleUnitSphere(draws, pos, m));
    var dir := if NearZero(scatterDir) then rec.normal else scatterDir;
    (Scattered(Ray(rec.point, dir), Albedo(albedo, rec, tm, m)), pos + 3)
  }

  /** The fuzzed mirror direction of `metal_scatter`. */
  function MetalDirection(fuzz: real, rayIn: Ray, rec: Primative.HitRecord, m: Math, draws: nat -> real, pos: nat): Vec3 {
    Add(Reflect(m.normalize(rayIn.direction), rec.normal), Scale(fuzz, SampleUnitSphere(draws, pos, m)))
  }

  /**
   * `metal_scatter`: scatters, from the hit point and with the albedo colour, exactly when the
   * fuzzed reflection leaves on the normal's side; otherwise the ray is absorbed.
   */
  function MetalScatter(albedo: Key, fuzz: real, rayIn: Ray, rec: Primative.HitRecord, tm: Texture.TextureMap,
                        m: Math, draws: nat -> real, pos: nat): (res: (ScatterResult, nat))
    requires Texture.MapOk(tm)
    ensures res.0.Scattered? <==> Dot(MetalDirection(fuzz, rayIn, rec, m, draws, pos), rec.normal) > 0.0
    ensures res.0.Scattered? ==>
      && res.0.rayOut == Ray(rec.point, MetalDirection(fuzz, rayIn, rec, m, draws, pos))
      && Dot(res.0.rayOut.direction, rec.normal) > 0.0
      && res.0.color == Albedo(albedo, rec, tm, m)
    ensures res.1 == pos + 3
  {
    var scattered := Ray(rec.point, MetalDirection(fuzz, rayIn, rec, m, draws, pos));
    if Dot(scattered.direction, rec.normal) > 0.0 then
      (Scattered(scattered, Albedo(albedo, rec, tm, m)), pos + 3)
    else (Absorbed, pos + 3)
  }

  /** `1/ir` on the front face, `ir` on the back face. */
  function Ratio(ir: real, frontFace: bool): real
    requires frontFace ==> ir != 0.0
  {
    if frontFace then 1.0 / ir else ir
  }

  /** The f32 divisions of the dielectric (by ir, and by 1 + ratio in Schlick's formula) are by non-zero values. */
  predicate RatioDefined(ir: real, frontFace: bool) {
    (frontFace ==> ir != 0.0) && Ratio(ir, frontFace) != -1.0
  }

  /** `cos_theta`, clamped at 1. */
  function CosTheta(unit: Vec3, normal: Vec3): real {
    MinR(Dot(Neg(unit), normal), 1.0)
  }

  /** `cannot_refract`: Snell's law has no solution, `ratio * sin_theta > 1`. */
  predicate CannotRefract(ir: real, rayIn: Ray, rec: Primative.HitRecord, m: Math)
    requires rec.frontFace ==> ir != 0.0
  {
    var cosTheta := CosTheta(m.normalize(rayIn.direction), rec.normal);
    Ratio(ir, rec.frontFace) * m.sqrt(1.0 - cosTheta * cosTheta) > 1.0
  }

  /**
   * `dielectric_scatter`: always scatters from the hit point with colour ONE. It reflects when
   * refraction is impossible or when the reflectance beats the draw, and refracts otherwise.
   */
  function DielectricScatter(ir: real, rayIn: Ray, rec: Primative.HitRecord, m: Math,
                             draws: nat -> real, pos: nat): (res: (ScatterResult, nat))
    requires RatioDefined(ir, rec.frontFace)
    ensures res.0.Scattered? && res.0.color == Image.One && res.0.rayOut.origin == rec.point
    ensures res.1 == pos + 1
    ensures var unit := m.normalize(rayIn.direction);
      var ratio := Ratio(ir, rec.frontFace);
      res.0.rayOut.direction ==
        if CannotRefract(ir, rayIn, rec, m) || Reflectance(CosTheta(unit, rec.normal), ratio) > draws(pos)
        then Reflect(unit, rec.normal)
        else Refract(unit, rec.normal, ratio, m)
  {
    var ratio := Ratio(ir, rec.frontFace);
    var unit := m.normalize(rayIn.direction);
    var cannotRefract := CannotRefract(ir, rayIn, rec, m);
    var angleCriteria := Reflectance(CosTheta(unit, rec.normal), ratio) > draws(pos);
    var dir := if cannotRefract || angleCriteria then Reflect(unit, rec.normal) else Refract(unit, rec.normal, ratio, m);
    (Scattered(Ray(rec.point, dir), Image.One), pos + 1)
  }

  /** When refraction is impossible the dielectric reflects, whatever the random draw. */
  lemma TotalInternalReflection(ir: real, rayIn: Ray, rec: Primative.HitRecord, m: Math,
                                draws: nat -> real, pos: nat, draws2: nat -> real, pos2: nat)
    requires RatioDefined(ir, rec.frontFace) && CannotRefract(ir, rayIn, rec, m)
    ensures DielectricScatter(ir, rayIn, rec, m, draws, pos).0 == DielectricScatter(ir, rayIn, rec, m, draws2, pos2).0
    ensures DielectricScatter(ir, rayIn, rec, m, draws, pos).0.rayOut.direction
         == Reflect(m.normalize(rayIn.direction), rec.normal)
  {
  }

  /** What `scatter` needs to be defined: a well-formed texture map and a dielectric ratio without zero divisors. */
  predicate ScatterDefined(mat: Material, rec: Primative.HitRecord, tm: Texture.TextureMap) {
    Texture.MapOk(tm) && (mat.Dielectric? ==> RatioDefined(mat.ir, rec.frontFace))
  }

  /** `Material::scatter`: dispatch on the variant; a light never scatters and draws nothing. */
  function Scatter(mat: Material, rayIn: Ray, rec: Primative.HitRecord, tm: Texture.TextureMap, m: Math,
                   draws: nat -> real, pos: nat): (res: (ScatterResult, nat))
    requires ScatterDefined(mat, rec, tm)
    ensures mat.DiffuseLight? <==> res.0.Absorbed? && res.1 == pos
    ensures mat.Lambertian? || mat.Dielectric? ==> res.0.Scattered?
    ensures res.0.Scattered? ==> res.0.rayOut.origin == rec.point
    ensures mat.Lambertian? ==> res == LambertianScatter(mat.albedo, rec, tm, m, draws, pos)
    ensures mat.Metal? ==> res == MetalScatter(mat.albedo, mat.fuzz, rayIn, rec, tm, m, draws, pos)
    ensures mat.Dielectric? ==> res == DielectricScatter(mat.ir, rayIn, rec, m, draws, pos)
    ensures res.1 >= pos
  {
    match mat
    case Lambertian(albedo) => LambertianScatter(albedo, rec, tm, m, draws, pos)
    case Metal(albedo, fuzz) => MetalScatter(albedo, fuzz, rayIn, rec, tm, m, draws, pos)
    case Dielectric(ir) => DielectricScatter(ir, rayIn, rec, m, draws, pos)
    case DiffuseLight(_) => (Absorbed, pos)
  }

  /** `Material::emit`: only a light emits, its texture's colour or magenta for a missing key. */
  function Emit(mat: Material, u: real, v: real, p: Vec3, tm: Texture.TextureMap, m: Math): (c: Image.Rgba)
    requires Texture.MapOk(tm)
    ensures !mat.DiffuseLight? ==> c == Image.Zero
    ensures mat.DiffuseLight? && mat.emit !in tm ==> c == Texture.Magenta
    ensures mat.DiffuseLight? && mat.emit in tm ==> c == Texture.Value(tm[mat.emit], u, v, p, tm, m)
  {
    match mat
    case DiffuseLight(emit) => Texture.Lookup(emit, u, v, p, tm, m)
    case _ => Image.Zero
  }
}
