/**
 * `SimpleTexture`: a solid colour, a 3D checker that defers to two other textures of the
 * texture map, or a noise texture. Colours are `Rgba` throughout (the generic colour type of
 * the source is instantiated with `Rgba`, whose `from_rgba` is the identity).
 */
module Texture {
  import opened Util
  import opened Geometry
  import Image
  import N = Noise

  datatype SimpleTexture =
    | Solid(color: Image.Rgba)
    | Checker(odd: Key, even: Key, scale: real)
    | Noise(noise: N.Noise, scale: real)

  /** The read-only texture pool, a slot map from keys to textures. */
  type TextureMap = map<Key, SimpleTexture>

  /** The colour the source returns for a texture key that is not in the map. */
  const Magenta: Image.Rgba := Image.Rgba(1.0, 0.0, 1.0, 1.0)

  /** `SimpleTexture::default`: solid grey 0.5 in every channel, alpha included. */
  function Default(): (t: SimpleTexture)
    ensures t.Solid? && forall k :: 0 <= k < 4 ==> Image.Channel(t.color, k) == 0.5
  {
    Solid(Image.Splat(0.5))
  }

  /**
   * The source has no cycle guard: a checker that reaches itself recurses forever. The pool
   * issues keys in increasing order and a checker can only name keys issued before it, so in
   * every map the program can build, each checker's children have smaller keys than its own.
   */
  predicate Acyclic(tm: TextureMap) {
    forall k :: k in tm && tm[k].Checker? ==> tm[k].odd < k && tm[k].even < k
  }

  /** Every noise texture, in the map or given directly, carries well-formed lattice tables. */
  predicate NoiseOk(t: SimpleTexture) {
    t.Noise? ==> N.NoiseOk(t.noise)
  }

  predicate MapOk(tm: TextureMap) {
    Acyclic(tm) && forall k :: k in tm ==> NoiseOk(tm[k])
  }

  /** Termination measure: a checker ranks above both of its children's keys. */
  function Rank(t: SimpleTexture): nat {
    if !t.Checker? then 0 else if t.odd >= t.even then t.odd + 1 else t.even + 1
  }

  /** The product of sines whose sign picks the checker cell. */
  function Sines(scale: real, p: Vec3, m: Math): real {
    m.sin(scale * p.x) * m.sin(scale * p.y) * m.sin(scale * p.z)
  }

  /** The colour of the noise texture: `0.5 * (1 + sin(scale * p.z + 10 * sample(p)))` in all channels. */
  function NoiseColor(noise: N.Noise, scale: real, p: Vec3, m: Math): Image.Rgba
    requires N.NoiseOk(noise)
  {
    Image.Splat(0.5 * (1.0 + m.sin(scale * p.z + 10.0 * N.SampleValue(noise, p))))
  }

  /** `SimpleTexture::value` at surface coordinates (u, v) and point p. */
  function Value(t: SimpleTexture, u: real, v: real, p: Vec3, tm: TextureMap, m: Math): (c: Image.Rgba)
    requires MapOk(tm) && NoiseOk(t)
    decreases Rank(t), 0
  {
    match t
    case Solid(color) => color
    case Checker(odd, even, scale) =>
      assert odd < Rank(t) && even < Rank(t);
      if Sines(scale, p, m) < 0.0 then Lookup(odd, u, v, p, tm, m) else Lookup(even, u, v, p, tm, m)
    case Noise(noise, scale) => NoiseColor(noise, scale, p, m)
  }

  /** `texture_map.get(key)` followed by `value`, with magenta for a key that is not in the map. */
  function Lookup(key: Key, u: real, v: real, p: Vec3, tm: TextureMap, m: Math): (c: Image.Rgba)
    requires MapOk(tm)
    decreases key, 1
  {
    if key in tm then
      assert Rank(tm[key]) <= key;
      Value(tm[key], u, v, p, tm, m)
    else Magenta
  }

  /** A solid texture returns its colour whatever the coordinates, the point and the map. */
  lemma SolidIgnoresCoordinates(color: Image.Rgba, u: real, v: real, p: Vec3, tm: TextureMap, m: Math,
                                u2: real, v2: real, p2: Vec3, tm2: TextureMap)
    requires MapOk(tm) && MapOk(tm2)
    ensures Value(Solid(color), u, v, p, tm, m) == Value(Solid(color), u2, v2, p2, tm2, m) == color
  {
  }

  /**
   * The checker takes the odd child exactly when the sine product is negative, and the even
   * child otherwise, a product of exactly zero included.
   */
  lemma CheckerSelects(odd: Key, even: Key, scale: real, u: real, v: real, p: Vec3, tm: TextureMap, m: Math)
    requires MapOk(tm)
    ensures Sines(scale, p, m) < 0.0 ==> Value(Checker(odd, even, scale), u, v, p, tm, m) == Lookup(odd, u, v, p, tm, m)
    ensures Sines(scale, p, m) >= 0.0 ==> Value(Checker(odd, even, scale), u, v, p, tm, m) == Lookup(even, u, v, p, tm, m)
  {
  }

  /** A lookup of a key absent from the map yields magenta; a present key yields that texture's value. */
  lemma LookupFallback(key: Key, u: real, v: real, p: Vec3, tm: TextureMap, m: Math)
    requires MapOk(tm)
    ensures key !in tm ==> Lookup(key, u, v, p, tm, m) == Magenta
    ensures key in tm ==> Lookup(key, u, v, p, tm, m) == Value(tm[key], u, v, p, tm, m)
  {
  }

  /** A checker both of whose children are missing is magenta at every point. */
  lemma CheckerOfMissingIsMagenta(odd: Key, even: Key, scale: real, u: real, v: real, p: Vec3, tm: TextureMap, m: Math)
    requires MapOk(tm) && odd !in tm && even !in tm
    ensures Value(Checker(odd, even, scale), u, v, p, tm, m) == Magenta
  {
  }

  /** A colour whose four channels all lie in [0, 1]. */
  predicate UnitColor(c: Image.Rgba) {
    0.0 <= c.r <= 1.0 && 0.0 <= c.g <= 1.0 && 0.0 <= c.b <= 1.0 && 0.0 <= c.a <= 1.0
  }

  /** With a sine bounded by 1, every channel of a noise texture lies in [0, 1]. */
  lemma NoiseColorInUnitRange(noise: N.Noise, scale: real, p: Vec3, m: Math)
    requires N.NoiseOk(noise) && SinBounded(m)
    ensures UnitColor(NoiseColor(noise, scale, p, m))
  {
    var s := m.sin(scale * p.z + 10.0 * N.SampleValue(noise, p));
    assert -1.0 <= s <= 1.0;
  }

  /** Solid colours in [0, 1]: the texture itself, or every texture of a map. */
  predicate SolidInUnitRange(t: SimpleTexture) {
    t.Solid? ==> UnitColor(t.color)
  }

  predicate MapInUnitRange(tm: TextureMap) {
    forall k :: k in tm ==> SolidInUnitRange(tm[k])
  }

  /**
   * When every solid colour lies in [0, 1] and the sine is bounded, so does every value: the
   * checker only forwards other textures' values or magenta, and noise stays in [0, 1].
   */
  lemma {:induction false} ValueInUnitRange(t: SimpleTexture, u: real, v: real, p: Vec3, tm: TextureMap, m: Math)
    requires MapOk(tm) && NoiseOk(t) && SinBounded(m)
    requires MapInUnitRange(tm) && SolidInUnitRange(t)
    ensures UnitColor(Value(t, u, v, p, tm, m))
    decreases Rank(t), 0
  {
    match t
    case Solid(_) =>
    case Checker(odd, even, scale) =>
      assert odd < Rank(t) && even < Rank(t);
      LookupInUnitRange(odd, u, v, p, tm, m);
      LookupInUnitRange(even, u, v, p, tm, m);
    case Noise(noise, scale) =>
      NoiseColorInUnitRange(noise, scale, p, m);
  }

  lemma {:induction false} LookupInUnitRange(key: Key, u: real, v: real, p: Vec3, tm: TextureMap, m: Math)
    requires MapOk(tm) && SinBounded(m) && MapInUnitRange(tm)
    ensures UnitColor(Lookup(key, u, v, p, tm, m))
    decreases key, 1
  {
    if key in tm {
      assert Rank(tm[key]) <= key;
      ValueInUnitRange(tm[key], u, v, p, tm, m);
    }
  }
}
