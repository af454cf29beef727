/**
 * The scene (`lib.rs`): the `World` with its texture and material pools and its collection of
 * primitives, the collection's closest-hit scan and bounds fold, and `ray_color`, the
 * depth-bounded recursive shading.
 *
 * The primitives of this revision are reached through the `Hittable` interface only: a
 * primitive type `P` with a hit query `(primitive, ray, t_min, t_max) -> RaycastResult` and a
 * bounds query, both given as functions. A hit carries its time and the record the materials
 * read; the record's material key is the key `ray_color` looks up.
 */
module World {
  import opened Util
  import opened Geometry
  import Image
  import Texture
  import Mat = Material
  import Primative

  /** An upper end of the hit window: finite, or `Float::INFINITY`. */
  datatype Limit = Finite(t: real) | Infinity

  predicate Below(t: real, l: Limit) { l.Infinity? || t <= l.t }

  /** Window end a is no later than window end b. */
  predicate LimitLe(a: Limit, b: Limit) { b.Infinity? || (a.Finite? && a.t <= b.t) }

  datatype RaycastResult = Hit(time: real, rec: Primative.HitRecord) | Miss

  /** The `t_min` that `ray_color` queries the scene with. */
  const HitTMin: real := 0.001

  // ---------------------------------------------------------------------------------------
  // HittableCollection::hit

  /** The window end after a scan that produced r: the last hit's time, or the original end. */
  function Closest(r: RaycastResult, tMax: Limit): Limit {
    if r.Hit? then Finite(r.time) else tMax
  }

  /**
   * The result of the loop of `HittableCollection::hit` over ps: each primitive is queried with
   * the window shrunk to the time of the last hit, and any hit it reports replaces the result.
   */
  function Scan<P>(ps: seq<P>, ray: Ray, tMin: real, tMax: Limit,
                   hit: (P, Ray, real, Limit) -> RaycastResult): RaycastResult
    decreases |ps|
  {
    if |ps| == 0 then Miss
    else
      var prev := Scan(ps[..|ps| - 1], ray, tMin, tMax, hit);
      var r := hit(ps[|ps| - 1], ray, tMin, Closest(prev, tMax));
      if r.Hit? then r else prev
  }

  /** A window's answer restricted to a narrower window ending at l. */
  function Narrow(r: RaycastResult, l: Limit): RaycastResult {
    if r.Hit? && Below(r.time, l) then r else Miss
  }

  /**
   * What a primitive's hit query promises: a hit lies at or after tMin, and querying a narrower
   * window gives the wider window's answer if it still fits and a miss otherwise (a primitive
   * reports its nearest intersection in the window).
   */
  ghost predicate NearestHitQuery<P(!new)>(hit: (P, Ray, real, Limit) -> RaycastResult, ray: Ray, tMin: real) {
    && (forall p, l :: hit(p, ray, tMin, l).Hit? ==> tMin <= hit(p, ray, tMin, l).time)
    && (forall p, l1, l2 :: LimitLe(l2, l1) ==> hit(p, ray, tMin, l2) == Narrow(hit(p, ray, tMin, l1), l2))
  }

  /** Under a nearest-hit query, a hit in the full window fits it. */
  lemma HitFitsWindow<P(!new)>(hit: (P, Ray, real, Limit) -> RaycastResult, ray: Ray, tMin: real, p: P, l: Limit)
    requires NearestHitQuery(hit, ray, tMin)
    ensures hit(p, ray, tMin, l).Hit? ==> tMin <= hit(p, ray, tMin, l).time && Below(hit(p, ray, tMin, l).time, l)
  {
    assert LimitLe(l, l);
    assert hit(p, ray, tMin, l) == Narrow(hit(p, ray, tMin, l), l);
  }

  /**
   * With primitives that report their nearest intersection, the scan returns, among all hits
   * the primitives report for the full window, one at the smallest time, and a miss exactly
   * when no primitive is hit.
   */
  lemma {:induction false} ScanFindsNearest<P(!new)>(ps: seq<P>, ray: Ray, tMin: real, tMax: Limit,
                                               hit: (P, Ray, real, Limit) -> RaycastResult)
    requires NearestHitQuery(hit, ray, tMin)
    ensures var r := Scan(ps, ray, tMin, tMax, hit);
      && (r.Miss? <==> forall j :: 0 <= j < |ps| ==> hit(ps[j], ray, tMin, tMax).Miss?)
      && (r.Hit? ==> exists j :: 0 <= j < |ps| && hit(ps[j], ray, tMin, tMax) == r)
      && (r.Hit? ==> tMin <= r.time && Below(r.time, tMax))
      && (forall j :: 0 <= j < |ps| && hit(ps[j], ray, tMin, tMax).Hit? ==> r.time <= hit(ps[j], ray, tMin, tMax).time)
    decreases |ps|
  {
    if |ps| > 0 {
      var init := ps[..|ps| - 1];
      var last := ps[|ps| - 1];
      ScanFindsNearest(init, ray, tMin, tMax, hit);
      var prev := Scan(init, ray, tMin, tMax, hit);
      var c := Closest(prev, tMax);
      var full := hit(last, ray, tMin, tMax);
      assert LimitLe(c, tMax);
      assert hit(last, ray, tMin, c) == Narrow(full, c);
      HitFitsWindow(hit, ray, tMin, last, tMax);
      forall j | 0 <= j < |ps| - 1
        ensures ps[j] == init[j]
      {
      }
      if prev.Miss? {
        assert c == tMax;
      }
    }
  }

  /** `closest_time` never increases: each step's window end is at most the previous one. */
  lemma ClosestNeverIncreases<P(!new)>(ps: seq<P>, ray: Ray, tMin: real, tMax: Limit,
                                 hit: (P, Ray, real, Limit) -> RaycastResult)
    requires NearestHitQuery(hit, ray, tMin) && |ps| > 0
    ensures LimitLe(Closest(Scan(ps, ray, tMin, tMax, hit), tMax), Closest(Scan(ps[..|ps| - 1], ray, tMin, tMax, hit), tMax))
  {
    var prev := Scan(ps[..|ps| - 1], ray, tMin, tMax, hit);
    HitFitsWindow(hit, ray, tMin, ps[|ps| - 1], Closest(prev, tMax));
  }

  /** Whatever the queries do, a hit the scan returns is one that some primitive reported for some window. */
  lemma {:induction false} ScanReturnsReportedHit<P>(ps: seq<P>, ray: Ray, tMin: real, tMax: Limit,
                                                     hit: (P, Ray, real, Limit) -> RaycastResult)
    ensures var r := Scan(ps, ray, tMin, tMax, hit);
      r.Hit? ==> exists j, l :: 0 <= j < |ps| && hit(ps[j], ray, tMin, l) == r
    decreases |ps|
  {
    if |ps| > 0 {
      var init := ps[..|ps| - 1];
      ScanReturnsReportedHit(init, ray, tMin, tMax, hit);
      var prev := Scan(init, ray, tMin, tMax, hit);
      var l := Closest(prev, tMax);
      if hit(ps[|ps| - 1], ray, tMin, l).Hit? {
        assert hit(ps[|ps| - 1], ray, tMin, l) == Scan(ps, ray, tMin, tMax, hit);
      } else if prev.Hit? {
        var j, l2 :| 0 <= j < |init| && hit(init[j], ray, tMin, l2) == prev;
        assert ps[j] == init[j];
      }
    }
  }

  // ---------------------------------------------------------------------------------------
  // HittableCollection::bounds

  /** The union fold of `bounds`, starting from the zero box at the origin. */
  function BoundsFold<P>(ps: seq<P>, bounds: P -> Bounds): Bounds
    decreases |ps|
  {
    if |ps| == 0 then ZeroBounds else Union(BoundsFold(ps[..|ps| - 1], bounds), bounds(ps[|ps| - 1]))
  }

  /**
   * The fold is the least box enclosing the zero box and every primitive's box; in particular
   * it always contains the origin.
   */
  lemma {:induction false} BoundsFoldIsLeastEnclosing<P>(ps: seq<P>, bounds: P -> Bounds)
    ensures Encloses(BoundsFold(ps, bounds), ZeroBounds)
    ensures ContainsPoint(BoundsFold(ps, bounds), Origin)
    ensures forall j :: 0 <= j < |ps| ==> Encloses(BoundsFold(ps, bounds), bounds(ps[j]))
    ensures forall c :: Encloses(c, ZeroBounds) && (forall j :: 0 <= j < |ps| ==> Encloses(c, bounds(ps[j])))
                        ==> Encloses(c, BoundsFold(ps, bounds))
    decreases |ps|
  {
    if |ps| > 0 {
      var init := ps[..|ps| - 1];
      BoundsFoldIsLeastEnclosing(init, bounds);
      forall j | 0 <= j < |ps| - 1
        ensures ps[j] == init[j]
      {
      }
      var b := BoundsFold(ps, bounds);
      assert Encloses(b, BoundsFold(init, bounds));
      forall c | Encloses(c, ZeroBounds) && (forall j :: 0 <= j < |ps| ==> Encloses(c, bounds(ps[j])))
        ensures Encloses(c, b)
      {
        assert forall j :: 0 <= j < |init| ==> Encloses(c, bounds(init[j]));
      }
    }
  }

  /** `HittableCollection::List`: the primitives in insertion order. */
  class HittableCollection<P> {
    var primatives: seq<P>

    /** `HittableCollection::default`: the empty list. */
    constructor ()
      ensures primatives == []
    {
      primatives := [];
    }

    /** `HittableCollection::push`: appends one primitive at the end. */
    method Push(obj: P)
      modifies this
      ensures primatives == old(primatives) + [obj]
    {
      primatives := primatives + [obj];
    }

    /** `HittableCollection::hit`: the closest-hit linear scan with a shrinking window. */
    method Hit(ray: Ray, tMin: real, tMax: Limit, hit: (P, Ray, real, Limit) -> RaycastResult) returns (result: RaycastResult)
      ensures result == Scan(primatives, ray, tMin, tMax, hit)
    {
      result := Miss;
      var closestTime := tMax;
      var i := 0;
      while i < |primatives|
        invariant 0 <= i <= |primatives|
        invariant result == Scan(primatives[..i], ray, tMin, tMax, hit)
        invariant closestTime == Closest(result, tMax)
      {
        assert primatives[..i + 1][..i] == primatives[..i];
        var r := hit(primatives[i], ray, tMin, closestTime);
        if r.Hit? {
          closestTime := Finite(r.time);
          result := r;
        }
        i := i + 1;
      }
      assert primatives[..i] == primatives;
    }

    /** `HittableCollection::bounds`: the union fold from the zero box. */
    method Bounds(bounds: P -> Bounds) returns (b: Bounds)
      ensures b == BoundsFold(primatives, bounds)
    {
      b := ZeroBounds;
      var i := 0;
      while i < |primatives|
        invariant 0 <= i <= |primatives|
        invariant b == BoundsFold(primatives[..i], bounds)
      {
        assert primatives[..i + 1][..i] == primatives[..i];
        b := Union(b, bounds(primatives[i]));
        i := i + 1;
      }
      assert primatives[..i] == primatives;
    }
  }

  // ---------------------------------------------------------------------------------------
  // World and its pools

  /** Every key of a pool was issued below the counter, and the null key is never issued. */
  predicate IssuedBelow<T>(pool: map<Key, T>, next: Key) {
    next > NullKey && NullKey !in pool && forall k :: k in pool ==> k < next
  }

  /** A checker may only name texture keys issued before the given one (or the null key). */
  predicate ChildrenIssued(t: Texture.SimpleTexture, key: Key) {
    t.Checker? ==> t.odd < key && t.even < key
  }

  /** The dielectric divisions are by non-zero values on either face. */
  predicate MaterialsOk(materials: map<Key, Mat.Material>) {
    forall k :: k in materials && materials[k].Dielectric? ==> materials[k].ir != 0.0 && materials[k].ir != -1.0
  }

  class World<P> {
    var textures: map<Key, Texture.SimpleTexture>
    var materials: map<Key, Mat.Material>
    var nextTexture: Key
    var nextMaterial: Key
    var hittables: HittableCollection<P>

    ghost predicate Valid()
      reads this
    {
      IssuedBelow(textures, nextTexture) && IssuedBelow(materials, nextMaterial)
    }

    /** `World::default`: empty pools and an empty collection. */
    constructor ()
      ensures Valid() && fresh(hittables)
      ensures textures == map[] && materials == map[] && hittables.primatives == []
    {
      textures := map[];
      materials := map[];
      nextTexture := 1;
      nextMaterial := 1;
      hittables := new HittableCollection();
    }

    /**
     * `World::push_texture`: inserts under a fresh key, above every key issued so far, and returns
     * it; nothing else changes. A checker naming only earlier keys keeps the pool acyclic.
     */
    method PushTexture(texture: Texture.SimpleTexture) returns (key: Key)
      requires Valid()
      modifies this
      ensures Valid()
      ensures key !in old(textures) && key != NullKey
      ensures forall k :: k in old(textures) ==> k < key
      ensures textures == old(textures)[key := texture] && key in textures && textures[key] == texture
      ensures materials == old(materials) && nextMaterial == old(nextMaterial) && hittables == old(hittables)
      ensures old(Texture.Acyclic(textures)) && ChildrenIssued(texture, key) ==> Texture.Acyclic(textures)
      ensures old(Texture.MapOk(textures)) && ChildrenIssued(texture, key) && Texture.NoiseOk(texture)
              ==> Texture.MapOk(textures)
    {
      key := nextTexture;
      textures := textures[key := texture];
      nextTexture := nextTexture + 1;
    }

    /** `World::push_material`: inserts under a fresh key and returns it; nothing else changes. */
    method PushMaterial(material: Mat.Material) returns (key: Key)
      requires Valid()
      modifies this
      ensures Valid()
      ensures key !in old(materials) && key != NullKey
      ensures forall k :: k in old(materials) ==> k < key
      ensures materials == old(materials)[key := material] && key in materials && materials[key] == material
      ensures textures == old(textures) && nextTexture == old(nextTexture) && hittables == old(hittables)
    {
      key := nextMaterial;
      materials := materials[key := material];
      nextMaterial := nextMaterial + 1;
    }

    /** `World::push_hittable`: appends the primitive to the collection. */
    method PushHittable(primative: P)
      modifies hittables
      ensures hittables.primatives == old(hittables.primatives) + [primative]
    {
      hittables.Push(primative);
    }
  }

  /**
   * A world built through the pool API: two solid textures, then a checker over them. Because
   * each key is issued above the earlier ones, the pool it leaves is acyclic and well formed,
   * which is what `RayColor` demands of its textures.
   */
  method CheckerWorld<P>(odd: Image.Rgba, even: Image.Rgba, scale: real)
    returns (w: World<P>, oddKey: Key, evenKey: Key, checkerKey: Key)
    ensures w.Valid() && Texture.MapOk(w.textures)
    ensures oddKey < evenKey < checkerKey
    ensures w.textures == map[oddKey := Texture.Solid(odd), evenKey := Texture.Solid(even),
                              checkerKey := Texture.Checker(oddKey, evenKey, scale)]
  {
    w := new World();
    oddKey := w.PushTexture(Texture.Solid(odd));
    evenKey := w.PushTexture(Texture.Solid(even));
    checkerKey := w.PushTexture(Texture.Checker(oddKey, evenKey, scale));
  }

  // ---------------------------------------------------------------------------------------
  // World::ray_color

  /** The outcome of `ray_color`: a colour and the next draw position, or the panic of `expect`. */
  datatype Shade = Shaded(color: Image.Rgba, next: nat) | Panic

  /** A scattered bounce: `emitted + color * inner`, where a panic below propagates. */
  function Bounce(emitted: Image.Rgba, color: Image.Rgba, inner: Shade): (r: Shade)
    ensures inner.Panic? <==> r.Panic?
    ensures inner.Shaded? ==> r.next == inner.next
  {
    match inner
    case Panic => Panic
    case Shaded(c, next) => Shaded(Image.Add(emitted, Image.Mul(color, c)), next)
  }

  /**
   * `World::ray_color` over the world's pools and primitives. Depth 0 gives ZERO; otherwise the
   * scene is queried with `t_min = 0.001` and no upper limit, and a miss gives ONE.
   */
  function RayColor<P>(textures: Texture.TextureMap, materials: map<Key, Mat.Material>, ps: seq<P>,
                       hit: (P, Ray, real, Limit) -> RaycastResult, ray: Ray, m: Math,
                       draws: nat -> real, pos: nat, depth: nat): (r: Shade)
    requires Texture.MapOk(textures) && MaterialsOk(materials)
    decreases depth, 1
  {
    if depth == 0 then Shaded(Image.Zero, pos)
    else
      match Scan(ps, ray, HitTMin, Infinity, hit)
      case Miss => Shaded(Image.One, pos)
      case Hit(_, rec) => HitColor(textures, materials, ps, hit, ray, rec, m, draws, pos, depth)
  }

  /**
   * The hit branch of `ray_color`: the material must exist (the source panics otherwise); an
   * absorbed ray gives the emitted colour, a scattered one
   * `emitted + color * ray_color(ray_out, depth - 1)`.
   */
  function HitColor<P>(textures: Texture.TextureMap, materials: map<Key, Mat.Material>, ps: seq<P>,
                       hit: (P, Ray, real, Limit) -> RaycastResult, ray: Ray, rec: Primative.HitRecord,
                       m: Math, draws: nat -> real, pos: nat, depth: nat): (r: Shade)
    requires Texture.MapOk(textures) && MaterialsOk(materials) && depth > 0
    decreases depth, 0
  {
    if rec.materialKey !in materials then Panic
    else
      var mat := materials[rec.materialKey];
      assert Mat.ScatterDefined(mat, rec, textures);
      var emitted := Mat.Emit(mat, rec.u, rec.v, rec.point, textures, m);
      var (scattered, next) := Mat.Scatter(mat, ray, rec, textures, m, draws, pos);
      match scattered
      case Absorbed => Shaded(emitted, next)
      case Scattered(rayOut, color) =>
        Bounce(emitted, color, RayColor(textures, materials, ps, hit, rayOut, m, draws, next, depth - 1))
  }

  /** The cases that end the recursion: depth 0, a miss, and a hit whose material key is missing. */
  lemma RayColorBaseCases<P>(textures: Texture.TextureMap, materials: map<Key, Mat.Material>, ps: seq<P>,
                             hit: (P, Ray, real, Limit) -> RaycastResult, ray: Ray, m: Math,
                             draws: nat -> real, pos: nat, depth: nat)
    requires Texture.MapOk(textures) && MaterialsOk(materials)
    ensures depth == 0 ==> RayColor(textures, materials, ps, hit, ray, m, draws, pos, depth) == Shaded(Image.Zero, pos)
    ensures depth > 0 && Scan(ps, ray, HitTMin, Infinity, hit).Miss? ==>
      RayColor(textures, materials, ps, hit, ray, m, draws, pos, depth) == Shaded(Image.One, pos)
    ensures depth > 0 && Scan(ps, ray, HitTMin, Infinity, hit).Hit?
            && Scan(ps, ray, HitTMin, Infinity, hit).rec.materialKey !in materials ==>
      RayColor(textures, materials, ps, hit, ray, m, draws, pos, depth) == Panic
  {
  }

  /** A light absorbs every ray, so a hit on it shades with exactly its emitted colour. */
  lemma LightHitIsEmitted<P>(textures: Texture.TextureMap, materials: map<Key, Mat.Material>, ps: seq<P>,
                             hit: (P, Ray, real, Limit) -> RaycastResult, ray: Ray, rec: Primative.HitRecord,
                             m: Math, draws: nat -> real, pos: nat, depth: nat)
    requires Texture.MapOk(textures) && MaterialsOk(materials) && depth > 0
    requires rec.materialKey in materials && materials[rec.materialKey].DiffuseLight?
    ensures HitColor(textures, materials, ps, hit, ray, rec, m, draws, pos, depth)
         == Shaded(Mat.Emit(materials[rec.materialKey], rec.u, rec.v, rec.point, textures, m), pos)
  {
  }

  /** Every hit any primitive reports names a material of the pool. */
  ghost predicate KeysResolve<P>(ps: seq<P>, hit: (P, Ray, real, Limit) -> RaycastResult, materials: map<Key, Mat.Material>) {
    forall j, ray, tMin, l :: 0 <= j < |ps| && hit(ps[j], ray, tMin, l).Hit? ==>
      hit(ps[j], ray, tMin, l).rec.materialKey in materials
  }

  /** Under KeysResolve, the scene query's hit names an existing material. */
  lemma SceneHitResolves<P>(ps: seq<P>, hit: (P, Ray, real, Limit) -> RaycastResult, materials: map<Key, Mat.Material>, ray: Ray)
    requires KeysResolve(ps, hit, materials)
    ensures Scan(ps, ray, HitTMin, Infinity, hit).Hit? ==> Scan(ps, ray, HitTMin, Infinity, hit).rec.materialKey in materials
  {
    ScanReturnsReportedHit(ps, ray, HitTMin, Infinity, hit);
  }

  /** When every reported hit names an existing material, `ray_color` never panics at any depth. */
  lemma {:induction false} RayColorNeverPanics<P>(textures: Texture.TextureMap, materials: map<Key, Mat.Material>,
                                                  ps: seq<P>, hit: (P, Ray, real, Limit) -> RaycastResult, ray: Ray,
                                                  m: Math, draws: nat -> real, pos: nat, depth: nat)
    requires Texture.MapOk(textures) && MaterialsOk(materials) && KeysResolve(ps, hit, materials)
    ensures RayColor(textures, materials, ps, hit, ray, m, draws, pos, depth).Shaded?
    decreases depth, 1
  {
    if depth > 0 {
      var r := Scan(ps, ray, HitTMin, Infinity, hit);
      if r.Hit? {
        SceneHitResolves(ps, hit, materials, ray);
        HitColorNeverPanics(textures, materials, ps, hit, ray, r.rec, m, draws, pos, depth);
      }
    }
  }

  lemma {:induction false} HitColorNeverPanics<P>(textures: Texture.TextureMap, materials: map<Key, Mat.Material>,
                                                  ps: seq<P>, hit: (P, Ray, real, Limit) -> RaycastResult, ray: Ray,
                                                  rec: Primative.HitRecord, m: Math, draws: nat -> real, pos: nat, depth: nat)
    requires Texture.MapOk(textures) && MaterialsOk(materials) && KeysResolve(ps, hit, materials)
    requires depth > 0 && rec.materialKey in materials
    ensures HitColor(textures, materials, ps, hit, ray, rec, m, draws, pos, depth).Shaded?
    decreases depth, 0
  {
    var mat := materials[rec.materialKey];
    assert Mat.ScatterDefined(mat, rec, textures);
    var res := Mat.Scatter(mat, ray, rec, textures, m, draws, pos);
    if res.0.Scattered? {
      RayColorNeverPanics(textures, materials, ps, hit, res.0.rayOut, m, draws, res.1, depth - 1);
    }
  }

  /** No material of the pool is a light. */
  predicate NoLights(materials: map<Key, Mat.Material>) {
    forall k :: k in materials ==> !materials[k].DiffuseLight?
  }

  lemma MulUnit(c: Image.Rgba, d: Image.Rgba)
    requires Texture.UnitColor(c) && Texture.UnitColor(d)
    ensures Texture.UnitColor(Image.Mul(c, d))
  {
    Mat.UnitProduct(c.r, d.r);
    Mat.UnitProduct(c.g, d.g);
    Mat.UnitProduct(c.b, d.b);
    Mat.UnitProduct(c.a, d.a);
  }

  /** A bounce off a non-emitting surface with a colour in [0, 1] keeps a colour in [0, 1]. */
  lemma BounceInUnitRange(color: Image.Rgba, inner: Shade)
    requires Texture.UnitColor(color) && (inner.Shaded? ==> Texture.UnitColor(inner.color))
    ensures var r := Bounce(Image.Zero, color, inner); r.Shaded? ==> Texture.UnitColor(r.color)
  {
    if inner.Shaded? {
      MulUnit(color, inner.color);
      Image.ZeroIsAdditiveIdentity(Image.Mul(color, inner.color));
    }
  }

  /**
   * Without lights, with solid texture colours in [0, 1] and a bounded sine, every shaded colour
   * lies in [0, 1]: each bounce multiplies by an albedo in [0, 1] (or ONE), and the background is ONE.
   */
  lemma {:induction false} RayColorInUnitRange<P>(textures: Texture.TextureMap, materials: map<Key, Mat.Material>,
                                                  ps: seq<P>, hit: (P, Ray, real, Limit) -> RaycastResult, ray: Ray,
                                                  m: Math, draws: nat -> real, pos: nat, depth: nat)
    requires Texture.MapOk(textures) && MaterialsOk(materials)
    requires NoLights(materials) && Texture.MapInUnitRange(textures) && SinBounded(m)
    ensures var r := RayColor(textures, materials, ps, hit, ray, m, draws, pos, depth);
      r.Shaded? ==> Texture.UnitColor(r.color)
    decreases depth, 1
  {
    if depth > 0 {
      var r := Scan(ps, ray, HitTMin, Infinity, hit);
      if r.Hit? {
        HitColorInUnitRange(textures, materials, ps, hit, ray, r.rec, m, draws, pos, depth);
      }
    }
  }

  lemma {:induction false} HitColorInUnitRange<P>(textures: Texture.TextureMap, materials: map<Key, Mat.Material>,
                                                  ps: seq<P>, hit: (P, Ray, real, Limit) -> RaycastResult, ray: Ray,
                                                  rec: Primative.HitRecord, m: Math, draws: nat -> real, pos: nat, depth: nat)
    requires Texture.MapOk(textures) && MaterialsOk(materials) && depth > 0
    requires NoLights(materials) && Texture.MapInUnitRange(textures) && SinBounded(m)
    ensures var r := HitColor(textures, materials, ps, hit, ray, rec, m, draws, pos, depth);
      r.Shaded? ==> Texture.UnitColor(r.color)
    decreases depth, 0
  {
    if rec.materialKey in materials {
      var mat := materials[rec.materialKey];
      assert Mat.ScatterDefined(mat, rec, textures);
      var res := Mat.Scatter(mat, ray, rec, textures, m, draws, pos);
      if res.0.Scattered? {
        assert Texture.UnitColor(res.0.color) by {
          if mat.Lambertian? || mat.Metal? {
            Texture.LookupInUnitRange(mat.albedo, rec.u, rec.v, rec.point, textures, m);
          }
        }
        RayColorInUnitRange(textures, materials, ps, hit, res.0.rayOut, m, draws, res.1, depth - 1);
        BounceInUnitRange(res.0.color, RayColor(textures, materials, ps, hit, res.0.rayOut, m, draws, res.1, depth - 1));
      }
    }
  }
}
