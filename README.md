# razz core in Dafny

A model of the core of **razz**, a small Rust path tracer, together with proofs about it. The modelled parts are:

- **Image buffer** (`razz_lib/src/image.rs`): the `Rgba` colour operations and the flat, row-major RGBA buffer (four `f32` slots per pixel) with its pixel reads and writes.
- **Renderers** (`razz_lib/src/render.rs`): the progressive and the parallel renderer. Each `render` folds one gamma-corrected sample per pixel into the image with the running-mean update. The invariant kept across calls is that every slot holds the arithmetic mean of the samples fed to it.
- **Scene** (`razz_lib/src/lib.rs`):
  - the `World` with its texture and material slot maps and its `HittableCollection`;
  - the collection's closest-hit scan with its shrinking window, and its bounds union fold;
  - `ray_color`, the depth-bounded recursive shading.
- **Materials** (`razz_lib/src/material.rs`): Lambertian, metal, dielectric and diffuse light, with their scatter and emit rules, reflection and Schlick's reflectance.
- **Textures** (`razz_lib/src/texture.rs`): solid, checker (recursing through the texture map, with a magenta fallback for missing keys) and noise.
- **Perlin noise** (`razz_lib/src/noise.rs`): the Durstenfeld shuffle that builds the permutation tables, the hashed lattice lookup, the trilinear interpolation loop, turbulence and the `Noise` dispatch.
- **First generation of primitives** (`razz_lib/src/primative.rs`): triangles (Möller–Trumbore), the sphere test, the front-face rule, and `Primative`, which stamps its material key on every hit.
- **Second generation** (`razz_lib/src/shape/`): `Face` and `get_face`, `Sphere`, `Triangle`/`Mesh` carrying their own keys, and the `Primative` wrapper that delegates unchanged.

## Modelling conventions

- **Numbers.** `f32` is modelled as `real`.
- **Floating-point library.** The functions the renderer takes from it (`sqrt`, `sin`, `acos`, `atan2`, `powf`, `normalize`) are fields of a `Geometry.Math` record passed as a parameter. A lemma that needs a fact about one of them asks for it explicitly: `SinBounded` says sin lies in [-1, 1], and `SqrtNonNegative` says sqrt is never negative. `floor` is exact (`real.Floor`).
- **Randomness.** Random numbers are input streams. `draws: nat -> real` is read from a position `pos`, and each consumer returns the position after its draws. The shuffle's integer draws come from `picks: nat -> nat`, reduced to the inclusive range `0..=i` with `% (i + 1)`.
  - The renderers take their per-pixel samples as an input sequence. Camera ray plus `ray_color` are the sample source, and are not re-derived there.
- **Slot maps.** They become `map<Key, T>` with `Key = nat`. The pools issue keys 1, 2, 3, … from a counter, and key 0 is the null key that `*Key::default()` denotes and no pool issues.
- **Revisions.** The files come from different revisions of the program:
  - `lib.rs` reaches its primitives through a `Hittable` interface, modelled as a generic primitive type `P` with a hit query given as a function;
  - the first primitive generation (`primative.rs`) and the second (`shape/`) are separate modules and are not reconciled;
  - both generations see the mesh's bounding-volume hierarchy as an oracle over the triangle list.

## Model

| member | source | states |
|---|---|---|
| Geometry.Ray.At | razz_lib/src/lib.rs:36-39 | the point at parameter t lies t times the direction away from the origin; t = 0 gives the origin |
| Geometry.AtAdditive | razz_lib/src/lib.rs:36-39 | stepping s along a ray and then t from the reached point lands at the point for s + t |
| Geometry.Union | razz_lib/src/lib.rs:150 | the union of two boxes (componentwise min of the minima, max of the maxima) encloses both and lies inside every box that encloses both |
| Geometry.NearRootFirst | razz_lib/src/shape/sphere.rs:44-46 | with a non-negative square root, the near root (-half_b - sqrtd)/a is never larger than the far root |
| Image.Splat | razz_lib/src/image.rs:28-30 | every channel of `splat(v)` is v |
| Image.Add | razz_lib/src/image.rs:37-43 | colour addition is channelwise |
| Image.Mul | razz_lib/src/image.rs:45-51 | colour multiplication is channelwise |
| Image.Scale | razz_lib/src/image.rs:53-59 | scaling by a float multiplies every channel by it |
| Image.ZeroIsAdditiveIdentity | razz_lib/src/image.rs:37-43 | ZERO is a two-sided identity of addition |
| Image.OneIsMultiplicativeIdentity | razz_lib/src/image.rs:45-51 | ONE is a two-sided identity of multiplication |
| Image.GammaCorrect | razz_lib/src/image.rs:24-26 | every channel, alpha included, is divided by the sample count and then raised to the power gamma |
| Image.GammaCorrectSquares | razz_lib/src/image.rs:24-26 | with an exact powf, `gamma_correct(1, 2.0)` squares each channel (the colour times itself), not a square root |
| Image.ToArray | razz_lib/src/image.rs:32-34 | `to_array` is the four channels in the order r, g, b, a |
| Image.Flatten | razz_lib/src/render.rs:91-95 | concatenating the per-pixel arrays gives four slots per pixel |
| Image.FlattenAt | razz_lib/src/render.rs:91-95 | slot 4m + k of the concatenated frame is channel k of pixel m |
| Image.PixelIndexRowMajor | razz_lib/src/image.rs:88 | the index `width * y * 4 + x * 4` is four times the row-major position y * width + x |
| Image.PixelWindowInBounds | razz_lib/src/image.rs:88-96 | for x < width and y < height all four slots of the pixel's window lie inside the `width * height * 4` buffer |
| Image.PixelWindowsDisjoint | razz_lib/src/image.rs:88-96 | two distinct pixels with x < width have disjoint four-slot windows |
| Image.WritePixel | razz_lib/src/image.rs:87-93 | the buffer after a pixel write has the same length, holds the colour's four channels in the window, and every other slot is unchanged |
| Image.ReadAfterWrite | razz_lib/src/image.rs:87-103 | reading a pixel just written returns the colour written |
| Image.ReadAfterOtherWrite | razz_lib/src/image.rs:87-103 | writing one in-image pixel leaves the colour read at every other in-image pixel unchanged |
| Image.FlattenWindow | razz_lib/src/render.rs:91-95 | the four slots 4m..4m+3 of the concatenated frame hold pixel m |
| Image.RowMajorInBounds | razz_lib/src/image.rs:88-96 | a pixel inside the image has a row-major position below `width * height` |
| Image.FlattenMatchesPixelIndex | razz_lib/src/render.rs:73-95 | the parallel renderer's row-major frame buffer has each pixel exactly where `set_pixel_color` indexes it |
| Image.Image.constructor | razz_lib/src/image.rs:69-75 | `Image::new` has the given size and a buffer of `width * height * 4` slots, all 0.0 |
| Image.Image.FromVec | razz_lib/src/image.rs:77-85 | fails exactly when the data length is not `width * height * 4`; otherwise the image holds the data unchanged |
| Image.Image.SetPixelColor | razz_lib/src/image.rs:87-93 | the buffer afterwards is WritePixel of the old buffer: exactly the four window slots change |
| Image.Image.GetPixelColor | razz_lib/src/image.rs:95-103 | reads the colour stored in the pixel's four slots, without modifying the buffer |
| Render.Corrected | razz_lib/src/render.rs:34 | every sample is passed through `gamma_correct(1, 2.0)` |
| Render.FrameData | razz_lib/src/render.rs:73-95 | one frame has four slots per pixel |
| Render.FirstSampleAgrees | razz_lib/src/render.rs:36-43 | the first-sample branch (store the sample) agrees with the general formula at n = 0 |
| Render.BlendSlot | razz_lib/src/render.rs:36-43 | no contract of its own: the slot update, storing the sample at count 0 and the running-mean formula after; its meaning is stated by FirstSampleAgrees, MeanUpdate and BlendSlotIsRunningMean |
| Render.Blend | razz_lib/src/render.rs:97-109 | every slot after a merge is the running-mean update of the slot with the new frame's slot |
| Render.MeanUpdate | razz_lib/src/render.rs:40-41 | `(mean * n + x) * (1 / (n + 1))` is the sum of the n + 1 values over n + 1 |
| Render.BlendSlotIsRunningMean | razz_lib/src/render.rs:40-41 | blending the (n+1)-th value into the mean of n values gives the mean of n + 1 values |
| Render.BlendIsRunningMean | razz_lib/src/render.rs:36-46 | blending a frame into the mean image of the earlier frames gives the mean image of all of them |
| Render.SumOfIdentical | razz_lib/src/render.rs:97-109 | n identical frames sum to n times the frame in every slot |
| Render.MeanOfIdenticalFrames | razz_lib/src/render.rs:97-109 | accumulating the same frame any positive number of times leaves exactly that frame |
| Render.BlendColor | razz_lib/src/render.rs:36-43 | the colour stored for a pixel is, channel by channel, the slot update: the sample on the first frame, `(old * n + s) * (1 / (n + 1))` afterwards |
| Render.BlendWindowStep | razz_lib/src/render.rs:36-43 | overwriting pixel d's four slots with its blend extends the blended prefix from d to d + 1 pixels |
| Render.PartialBlendComplete | razz_lib/src/render.rs:29-45 | once every pixel is visited the partly blended buffer is the whole blend |
| Render.BlendPixelStep | razz_lib/src/render.rs:29-43 | processing pixel (x, y) in row-major order extends the blended prefix of the buffer by exactly that pixel |
| Render.ProgressiveRenderer.constructor | razz_lib/src/render.rs:17-25 | no samples, no frames, the given sizes, and a zeroed `width * height * 4` image |
| Render.ProgressiveRenderer.StorePixel | razz_lib/src/render.rs:36-43 | the pixel's window receives the sample on the first frame and the running-mean blend with the colour read back afterwards; nothing else changes |
| Render.ProgressiveRenderer.RenderRow | razz_lib/src/render.rs:30-44 | one row, column by column, extends the blended prefix by exactly the row's width |
| Render.ProgressiveRenderer.Render | razz_lib/src/render.rs:27-48 | visits every pixel once (row outer, column inner), blends the frame into the image, counts one more sample, and keeps the image equal to the mean of all frames |
| Render.ParallelRenderer.constructor | razz_lib/src/render.rs:61-69 | no samples, no frames, the given sizes, and a zeroed `width * height * 4` image |
| Render.ParallelRenderer.MergeFrame | razz_lib/src/render.rs:100-108 | every slot of the buffer gets the running-mean update in place |
| Render.ParallelRenderer.Render | razz_lib/src/render.rs:71-113 | the first call replaces the buffer with the frame, later calls merge it in place; the length is preserved, one more sample is counted, and the image stays the mean of all frames |
| World.ScanFindsNearest | razz_lib/src/lib.rs:120-139 | when primitives report their nearest hit, the scan misses exactly when no primitive is hit; otherwise it returns some primitive's hit in [t_min, t_max] with the smallest time |
| World.Scan | razz_lib/src/lib.rs:120-139 | no contract of its own: the reference fold of the closest-hit scan with the shrinking window; ScanFindsNearest, ScanReturnsReportedHit and ClosestNeverIncreases state its meaning, and HittableCollection.Hit is proved equal to it |
| World.ClosestNeverIncreases | razz_lib/src/lib.rs:127-130 | `closest_time` never increases from one primitive to the next |
| World.ScanReturnsReportedHit | razz_lib/src/lib.rs:126-134 | whatever the primitives do, a returned hit is one some primitive reported |
| World.HitFitsWindow | razz_lib/src/lib.rs:127 | a nearest-hit query's hit lies inside the window it was asked about |
| World.BoundsFoldIsLeastEnclosing | razz_lib/src/lib.rs:141-155 | the fold from the zero box encloses every primitive's box and the origin, and lies inside every box that encloses them and the zero box |
| World.BoundsFold | razz_lib/src/lib.rs:141-155 | no contract of its own: the reference union fold from the zero box; BoundsFoldIsLeastEnclosing states its meaning, and HittableCollection.Bounds is proved equal to it |
| World.HittableCollection.constructor | razz_lib/src/lib.rs:111-117 | the default collection is empty |
| World.HittableCollection.Push | razz_lib/src/lib.rs:104-108 | appends exactly one primitive at the end |
| World.HittableCollection.Hit | razz_lib/src/lib.rs:120-139 | the loop returns the scan result (see ScanFindsNearest) |
| World.HittableCollection.Bounds | razz_lib/src/lib.rs:141-155 | the loop returns the union fold (see BoundsFoldIsLeastEnclosing) |
| World.World.constructor | razz_lib/src/lib.rs:53-58 | empty pools and an empty collection |
| World.World.PushTexture | razz_lib/src/lib.rs:85-87 | returns a fresh non-null key, above every key already in the pool, that now maps to the texture, and nothing else changes; a checker naming earlier keys keeps the pool acyclic and well formed |
| World.World.PushMaterial | razz_lib/src/lib.rs:89-91 | returns a fresh non-null key, above every key already in the pool, that now maps to the material, and nothing else changes |
| World.World.PushHittable | razz_lib/src/lib.rs:93-95 | appends the primitive to the collection |
| World.CheckerWorld | razz_lib/src/lib.rs:85-87 | a pool built through `push_texture` from two solids and a checker over their keys holds exactly those three textures under increasing keys and satisfies Texture.MapOk, the texture precondition of RayColor |
| World.Bounce | razz_lib/src/lib.rs:76 | `emitted + color * inner` panics exactly when the inner call panics |
| World.RayColorBaseCases | razz_lib/src/lib.rs:62-81 | depth 0 gives ZERO; a miss of the query (t_min 0.001, no upper limit) gives ONE; a hit whose material key is missing panics |
| World.RayColor | razz_lib/src/lib.rs:61-83 | no contract of its own: `ray_color` as a total function returning a colour and the next draw position, or the `expect` panic; its properties are RayColorBaseCases, LightHitIsEmitted, RayColorNeverPanics and RayColorInUnitRange |
| World.HitColor | razz_lib/src/lib.rs:67-80 | no contract of its own: the hit branch of `ray_color` (material lookup, emission, scatter, recursion on depth - 1); its properties are HitColorNeverPanics and HitColorInUnitRange |
| World.LightHitIsEmitted | razz_lib/src/lib.rs:72-78 | a hit on a light (always absorbed) shades with exactly its emitted colour, and no draw is consumed |
| World.SceneHitResolves | razz_lib/src/lib.rs:66-71 | when every reported hit names an existing material, the query's hit does too |
| World.RayColorNeverPanics | razz_lib/src/lib.rs:61-83 | under that condition `ray_color` never reaches the `expect` panic, at any depth |
| World.HitColorNeverPanics | razz_lib/src/lib.rs:67-80 | the same for the hit branch, the recursion on `depth - 1` included |
| World.BounceInUnitRange | razz_lib/src/lib.rs:76 | a non-emitting bounce with a colour in [0, 1] keeps the shaded colour in [0, 1] |
| World.RayColorInUnitRange | razz_lib/src/lib.rs:61-83 | without lights, with solid colours in [0, 1] and a bounded sine, every colour `ray_color` returns lies in [0, 1] |
| World.HitColorInUnitRange | razz_lib/src/lib.rs:67-80 | the same for the hit branch |
| Material.Default | razz_lib/src/material.rs:61-67 | the default material is Lambertian over the null texture key |
| Material.NearZero | razz_lib/src/material.rs:179-182 | no contract of its own: all three components have magnitude below 1e-8; NearZeroIsShort bounds the vector's length, and LambertianScatter uses it for the fallback |
| Material.NearZeroIsShort | razz_lib/src/material.rs:179-182 | a near-zero vector has squared length below 3·(1e-8)² |
| Material.SampleUnitSphere | razz_lib/src/material.rs:154-156 | no contract of its own: one `Vec3A` draw, recentred by 0.5 and normalised |
| Material.SampleUnitSphereReadsThreeDraws | razz_lib/src/material.rs:154-156 | the sample depends only on the draws at pos, pos + 1 and pos + 2 |
| Material.Refract | razz_lib/src/material.rs:164-169 | no contract of its own: the perpendicular part eta·(v + cosθ·n) plus the parallel part along n; RefractScalesTangent states its meaning |
| Material.RefractScalesTangent | razz_lib/src/material.rs:164-169 | Snell's law in vector form: for a unit normal, the component of the refracted ray along the surface is eta times the incident one's, whatever the square root returns |
| Material.Reflect | razz_lib/src/material.rs:159-161 | the reflection plus twice the normal component `2(v·n)n` gives back v |
| Material.ReflectNegatesNormalComponent | razz_lib/src/material.rs:159-161 | for a unit normal, reflection negates the component along the normal |
| Material.ReflectInvolutive | razz_lib/src/material.rs:159-161 | for a unit normal, reflecting twice gives the original vector |
| Material.Reflectance | razz_lib/src/material.rs:172-176 | Schlick: r0 + (1 - r0)(1 - cos)^5 with r0 = ((1 - r) / (1 + r))^2 |
| Material.ReflectanceAtNormalIncidence | razz_lib/src/material.rs:172-176 | `reflectance(1, r)` is exactly ((1 - r) / (1 + r))^2 |
| Material.ReflectanceBounds | razz_lib/src/material.rs:172-176 | for a non-negative index and a cosine in [0, 1], the reflectance lies between r0 and 1 |
| Material.LambertianScatter | razz_lib/src/material.rs:70-92 | always scatters from the hit point with the albedo texture's colour (magenta if missing); direction normal + sample, or the normal when that sum is near zero; three draws |
| Material.MetalScatter | razz_lib/src/material.rs:95-121 | scatters exactly when the fuzzed reflection has a positive dot with the normal, then from the hit point with the albedo colour; otherwise absorbed |
| Material.DielectricScatter | razz_lib/src/material.rs:124-151 | always scatters from the hit point with colour ONE; the ratio is 1/ir on the front face and ir on the back; reflects when refraction is impossible or the reflectance beats the draw, refracts otherwise |
| Material.TotalInternalReflection | razz_lib/src/material.rs:136-141 | when `ratio * sin_theta > 1`, the dielectric reflects whatever the random draw |
| Material.Scatter | razz_lib/src/material.rs:24-39 | dispatch to the variant's rule; a light, and only a light, is absorbed without drawing; Lambertian and dielectric always scatter |
| Material.Emit | razz_lib/src/material.rs:42-58 | ZERO for Lambertian, metal and dielectric; a light gives its texture's value, or magenta when the key is missing |
| Texture.Default | razz_lib/src/texture.rs:24-30 | the default texture is solid, 0.5 in every channel |
| Texture.Value | razz_lib/src/texture.rs:36-63 | no contract of its own: the texture value by variant, terminating on Acyclic maps; its properties are SolidIgnoresCoordinates, CheckerSelects, NoiseColorInUnitRange and ValueInUnitRange |
| Texture.Lookup | razz_lib/src/texture.rs:48-56 | no contract of its own: `texture_map.get` followed by the value or the magenta fallback; its properties are LookupFallback, CheckerOfMissingIsMagenta and LookupInUnitRange |
| Texture.SolidIgnoresCoordinates | razz_lib/src/texture.rs:44 | a solid texture yields its colour whatever u, v, p and the map are |
| Texture.CheckerSelects | razz_lib/src/texture.rs:46-57 | the checker takes the odd child exactly when the sine product is negative, and the even child otherwise, zero included |
| Texture.LookupFallback | razz_lib/src/texture.rs:48-56 | a missing key yields magenta (1, 0, 1, 1); a present key yields that texture's value |
| Texture.CheckerOfMissingIsMagenta | razz_lib/src/texture.rs:50-55 | a checker whose children are both missing is magenta everywhere |
| Texture.NoiseColorInUnitRange | razz_lib/src/texture.rs:59-61 | with sin in [-1, 1], every channel of the noise texture lies in [0, 1] |
| Texture.ValueInUnitRange | razz_lib/src/texture.rs:36-63 | when every solid colour lies in [0, 1] and the sine is bounded, every texture value does too, through any chain of checkers |
| Texture.LookupInUnitRange | razz_lib/src/texture.rs:48-56 | the same for a texture-map lookup, magenta included |
| Noise.Iota | razz_lib/src/noise.rs:86-87 | the table before shuffling holds p[i] = i |
| Noise.PermutationFacts | razz_lib/src/noise.rs:85-91 | a permutation of 0..n-1 has length n, entries below n, and contains every value below n |
| Noise.Swap | razz_lib/src/noise.rs:97-99 | exchanges two entries and leaves the rest unchanged |
| Noise.SwapPreservesMultiset | razz_lib/src/noise.rs:97-99 | an exchange preserves the multiset of entries |
| Noise.Target | razz_lib/src/noise.rs:96 | the draw of iteration k, reduced to the inclusive range of index n-1-k, lies in 0..=n-1-k |
| Noise.Shuffled | razz_lib/src/noise.rs:94-101 | the table after the first k iterations of the descending shuffle keeps its length |
| Noise.ShuffledPermutes | razz_lib/src/noise.rs:94-101 | after any number of iterations the table is a permutation (same multiset) of the original |
| Noise.SwapKeepsMultiset | razz_lib/src/noise.rs:97-99 | an exchange applied to a table with the multiset of s keeps that multiset |
| Noise.ShuffledKeepsTail | razz_lib/src/noise.rs:94-101 | no iteration touches an entry at index n or beyond |
| Noise.SwapEntries | razz_lib/src/noise.rs:97-99 | the in-place exchange through a temporary is Swap |
| Noise.Permute | razz_lib/src/noise.rs:94-101 | i runs from n-1 down to 0, swapping p[i] with a target in 0..=i; the array afterwards is the shuffle of the old one (a permutation of it), with one draw per index |
| Noise.GeneratePerm | razz_lib/src/noise.rs:85-91 | the shuffled identity: a permutation of 0..255 with every entry below 256 |
| Noise.RandomVectors | razz_lib/src/noise.rs:41-44 | 256 gradient vectors, vector k from the three draws 3k, 3k+1, 3k+2 |
| Noise.NewPerlinData | razz_lib/src/noise.rs:40-56 | well-formed tables: 256 gradients and three permutation tables of 0..255, filled in the order x, y, z |
| Noise.Wrap | razz_lib/src/noise.rs:73-75 | `& 255` gives an index in [0, 255] congruent to the lattice coordinate modulo 256, for negative coordinates too |
| Noise.XorBelow | razz_lib/src/noise.rs:73-76 | the exclusive or of two values below 2^k is below 2^k |
| Noise.XorCommutes | razz_lib/src/noise.rs:73-75 | exclusive or is commutative |
| Noise.HashInBounds | razz_lib/src/noise.rs:73-76 | the exclusive or of three table entries below 256 is below 256, so it indexes `ranvec` |
| Noise.Corner | razz_lib/src/noise.rs:73-76 | the lattice lookup returns one of the stored gradients |
| Noise.InterpStep | razz_lib/src/noise.rs:111-121 | one loop step adds the term of corner (i, j, k) |
| Noise.TermVanishesAtCorner | razz_lib/src/noise.rs:114-118 | at offsets (0, 0, 0) every term is zero |
| Noise.InterpSumAtCorner | razz_lib/src/noise.rs:111-121 | at offsets (0, 0, 0) every prefix of the loop's sum is zero |
| Noise.InterpAtCorner | razz_lib/src/noise.rs:104-124 | the interpolation at a cell's own corner is zero whatever the gradients |
| Noise.NoiseZeroAtLattice | razz_lib/src/noise.rs:59-82 | Perlin noise is zero at every lattice point |
| Noise.PerlinInterp | razz_lib/src/noise.rs:104-124 | the triple loop computes the sum of the eight weighted corner terms |
| Noise.Flat | razz_lib/src/noise.rs:68 | the 2x2x2 corner array read in the loop order 4i + 2j + k |
| Noise.StoreCorner | razz_lib/src/noise.rs:73-76 | storing corner (di, dj, dk) extends the filled prefix of the 2x2x2 array by that corner, which gets the hashed gradient |
| Noise.FillCell | razz_lib/src/noise.rs:70-79 | the triple loop fills all eight corners with their hashed gradients |
| Noise.FilledIsCell | razz_lib/src/noise.rs:68-79 | a fully filled array read in loop order is the cell of the point |
| Noise.NoiseAt | razz_lib/src/noise.rs:59-82 | the nested fill of the corner gradients followed by the interpolation computes NoiseValue |
| Noise.HalvedIsWeighted | razz_lib/src/noise.rs:133-134 | halving a value n times is multiplying it by the weight of octave n |
| Noise.WeightedSumSnoc | razz_lib/src/noise.rs:133 | appending octave n adds its value halved n times |
| Noise.AccumulateOctave | razz_lib/src/noise.rs:133 | the loop's `accum += weight * noise` extends the weighted sum by one octave |
| Noise.WeightHalves | razz_lib/src/noise.rs:134 | each octave weight is positive and half the previous one |
| Noise.TurbOctave | razz_lib/src/noise.rs:132-136 | one iteration keeps the loop state: point 2^n p, weight of octave n, and the accumulator equal to the weighted sum of the values sampled so far |
| Noise.Turb | razz_lib/src/noise.rs:127-139 | computes the magnitude of the weighted octave sum (weight halved, point doubled each step); the result is non-negative, and 0 for depth 0 |
| Noise.TurbulentSampleNonNegative | razz_lib/src/noise.rs:138 | a turbulent sample is never negative |
| Noise.Sample | razz_lib/src/noise.rs:20-25 | Perlin dispatches to `noise`, Turbulent to `turb` with its stored depth |
| Primative.VecFrom | razz_lib/src/primative.rs:49-51 | floor(len/3) triangles from consecutive vertex triples; a remainder is dropped |
| Primative.TriangleBounds | razz_lib/src/primative.rs:54-61 | the box holds all three vertices and lies inside every box that holds them |
| Primative.SetFrontFace | razz_lib/src/primative.rs:187-194 | front face iff dot(dir, n) < 0; the normal is n or -n accordingly and always has dot(dir, normal) <= 0 |
| Primative.SphereUv | razz_lib/src/primative.rs:197-202 | no contract of its own: u = (π - atan2(z, x))/(2π) and v = -acos(y)/π; SphereUvRange bounds them |
| Primative.SphereUvRange | razz_lib/src/primative.rs:197-202 | with acos in [0, π] and atan2 in [-π, π], u lies in [0, 1] and v, being a negated arc cosine, in [-1, 0] |
| Primative.TriangleRayHit | razz_lib/src/primative.rs:66-110 | a hit exactly when the determinant, barycentric and time tests all pass; the hit then has 0 <= u <= 1, v >= 0, u + v <= 1, t in [t_min, t_max], the point `ray.at(t)`, the normal and front-face flag that `set_front_face` gives for the normalised face normal (v1 - v0) × (v2 - v0), so a normal opposing the ray, and the null key |
| Primative.ParallelRayMisses | razz_lib/src/primative.rs:72-74 | a determinant of magnitude below 0.0001 never hits, whatever the window |
| Primative.SphereHit | razz_lib/src/primative.rs:205-247 | misses on a negative discriminant; otherwise hits exactly when a root lies in the window, choosing the near root first and the far root only as fallback, at `ray.at(root)`, with the normal and front-face flag that `set_front_face` gives for the outward normal (point - center) / radius, and the null key |
| Primative.Default | razz_lib/src/primative.rs:143-151 | the unit sphere at the origin with the null key |
| Primative.PrimativeBounds | razz_lib/src/primative.rs:153-163 | center ∓ radius on each axis for a sphere, the hierarchy's box for a mesh |
| Primative.SphereBoundsHoldBall | razz_lib/src/primative.rs:156-159 | every point of a sphere of non-negative radius lies in its bounds |
| Primative.RayHit | razz_lib/src/primative.rs:168-183 | the inner hit with the material key replaced by the primitive's own, and the time and all other fields unchanged |
| Primative.RayHitInWindow | razz_lib/src/primative.rs:168-183 | a primitive's hit lies in [t_min, t_max] when the hierarchy answers within the window |
| Shape.GetFace | razz_lib/src/shape/mod.rs:16-22 | Front with the unchanged normal iff dot(dir, n) < 0, else Back with -n; the normal opposes the ray |
| Shape.GetFaceOfReversedNormal | razz_lib/src/shape/mod.rs:16-22 | off the grazing boundary, reversing the normal swaps the face and gives the same returned normal |
| ShapeSphere.SphereBounds | razz_lib/src/shape/sphere.rs:20-27 | from center - radius to center + radius on each axis |
| ShapeSphere.CenterInBounds | razz_lib/src/shape/sphere.rs:20-27 | a sphere of non-negative radius has its centre in its bounds |
| ShapeSphere.RayHit | razz_lib/src/shape/sphere.rs:32-71 | misses on a negative discriminant; hits exactly when a root lies in the window, near root preferred; the point is `ray.at(root)`, face and normal are `get_face` of the outward normal, and the key is the sphere's own |
| ShapeSphere.FarRootOnlyAsFallback | razz_lib/src/shape/sphere.rs:44-50 | a hit away from the near root is at the far root, and the near root was outside the window |
| ShapeSphere.NearerRootWins | razz_lib/src/shape/sphere.rs:44-50 | with the near root in the window the sphere is hit at a time no later than the far root |
| ShapeMesh.NewTriangle | razz_lib/src/shape/mesh.rs:14-21 | wraps: the constructor stores its three vertices and its key as given; nothing further is proved |
| ShapeMesh.VecFrom | razz_lib/src/shape/mesh.rs:23-27 | floor(len/3) triangles from consecutive triples, each carrying the given key |
| ShapeMesh.TriangleBounds | razz_lib/src/shape/mesh.rs:30-37 | the box holds all three vertices and lies inside every box that holds them |
| ShapeMesh.TriangleRayHit | razz_lib/src/shape/mesh.rs:42-86 | a hit exactly when the determinant, barycentric and time tests pass; then the barycentric bounds, t in [t_min, t_max], `get_face` of the normal, and the triangle's own key |
| ShapeMesh.MeshBounds | razz_lib/src/shape/mesh.rs:171-175 | exactly the hierarchy's box |
| ShapeMesh.MeshRayHit | razz_lib/src/shape/mesh.rs:177-183 | exactly the hierarchy's answer |
| ShapeMesh.MeshHitFromVecFrom | razz_lib/src/shape/mesh.rs:177-183 | a mesh built by `vec_from` with one key, under a hierarchy that answers with its triangles' hits, reports hits with that key, in the window, inside the triangle and facing the ray |
| ShapeMesh.MeshBoundsHoldVertices | razz_lib/src/shape/mesh.rs:171-175 | under an enclosing hierarchy every vertex lies in the mesh's bounds |
| ShapePrimative.NewSphere | razz_lib/src/shape/mod.rs:54-56 | wraps: the constructor stores the sphere as given; nothing further is proved |
| ShapePrimative.NewMesh | razz_lib/src/shape/mod.rs:58-60 | wraps: the constructor stores the mesh as given; nothing further is proved |
| ShapePrimative.Default | razz_lib/src/shape/mod.rs:67-75 | the unit sphere at the origin with the null key |
| ShapePrimative.PrimativeBounds | razz_lib/src/shape/mod.rs:77-84 | the wrapped shape's bounds, unchanged |
| ShapePrimative.RayHit | razz_lib/src/shape/mod.rs:86-95 | the wrapped shape's answer, unchanged |
| ShapePrimative.RayHitInWindowAndFacing | razz_lib/src/shape/mod.rs:86-95 | any hit lies in the window and its normal opposes the ray, for spheres and for meshes whose hierarchy answers with its triangles' hits |
| ShapePrimative.SphereHitKeepsKey | razz_lib/src/shape/mod.rs:86-95 | a wrapped sphere's hit carries the sphere's key |

## Left out

- **Floating point.** IEEE rounding, infinities and NaN are not modelled.
  - Where an f32 division by zero would produce inf or NaN, the model requires a non-zero divisor instead. This covers:
    - the sphere tests with a zero direction (a = 0) or a zero radius;
    - `reflectance` with index -1;
    - the dielectric's `1 / ir` on the front face and `1 + ratio` in Schlick's formula;
    - `gamma_correct` with a sample count of 0.
  - Image.GammaCorrect: requires a sample count above 0, because the source divides by it; the renderers always pass 1.
  - World.RayColor: requires World.MaterialsOk, which asks every dielectric for `ir != 0` and `ir != -1` on both faces. Only the front face needs `ir != 0` (the source computes `1.0 / ir` there); on the back face the ratio is `ir` itself, so an `ir = 0` dielectric gives r0 = 1 and reflects without NaN. The model therefore also excludes those well-defined back-face hits of an `ir = 0` dielectric.
- **Index panics.** Image.Image.SetPixelColor: requires the pixel's window to lie inside the buffer. The source indexes the slice without a check and panics when `index + k` is out of range, possibly after it has written the earlier slots of the window; the model does not cover that panic or the partial write.
  - Image.Image.GetPixelColor: requires the same, and does not cover the source's index panic either.
- **Float-to-integer casts.** `floor() as isize` saturates at the isize range; the model uses the unbounded integer floor. For coordinates within the isize range the lattice index is the same.
- **The bounding-volume hierarchy.** `Bvh3A::build`, `ray_hit` and `bounds` come from an external crate whose source is not part of this model. They are an oracle. Only the properties a lemma names are assumed, and only by that lemma (OracleInWindow, OracleReportsTriangles, OracleEncloses).
- **Transcendental values.** The exact values of `sqrt`, `sin`, `acos`, `atan2`, `powf` and `normalize` are not modelled:
  - Primative.SphereUvRange: states `sphere_uv`'s range only under assumed ranges of `acos` and `atan2`, which are parameters of the lemma;
  - Material.Refract: only the tangential part is stated (RefractScalesTangent); the length of the normal part depends on the uninterpreted square root;
  - the distribution of `sample_unit_sphere` is not modelled, including normalising a zero vector.
- **Random number generation.** `rand::Rng`, `thread_rng` and the inclusive `Uniform` distribution are not modelled; they become the input streams described above. The exact consumption order of `rng.gen::<Vec3A>()` is assumed to be x, y, z.
- **Parallelism.** Rayon's parallel rows and per-thread generators in `ParallelRenderer::render` are not modelled; the frame is computed as one sequential map and only the merge is verified.
- **Sample source.** The renderers take camera rays and `ray_color` results as an input sequence of samples. `razz_lib/src/camera.rs` and `razz_lib/src/sampler.rs` are not part of this model.
- **`Image::as_bytes`.** It is an unsafe reinterpretation of the buffer with no behaviour to state.
- **Loading and construction helpers.**
  - `Mesh::from_obj` and `Primative::from_obj` (OBJ loading and an affine transform) are not modelled.
  - The `From` conversions of the triangles are folded into `VecFrom`.
  - The first generation's `Triangle::new`, `Primative::sphere` and `Primative::mesh` are the datatype constructors.
  - The external `Bvh3A::build` keeps the triangle list.
- **Traits.** The `Texture`, `Color`, `Hittable`, `Bounded` and `RayHittable` traits of `razz_lib/src/traits.rs` and the external crates are not modelled as traits. The Rgba instance is used for colours, and function parameters stand in for the primitive interface.
- **lib.rs record shape.** The `HitRecord` of the `lib.rs` revision carries its time; it is modelled as `RaycastResult.Hit(time, rec)`, with the first-generation record shape inside.
- **Pool arguments.** `ray_color` takes the pools and the primitive list as arguments, not through `&self`.
- **Texture termination.** Texture.Value: a checker that reaches itself recurses forever in the source. The model requires keys to point strictly downwards (Texture.Acyclic), which `World.World.PushTexture` preserves for checkers naming earlier keys; its returned key is above every earlier key, so a checker over keys it returned before qualifies (World.CheckerWorld).
- **Turbulence magnitude.** Noise.Turb: states non-negativity and the exact sum, but no bound on its size, because noise values depend on the uninterpreted `normalize`.
- **Gamma.** `gamma_correct` raises each channel to the power gamma, as written, not to 1/gamma. The model follows the code, so `gamma_correct(1, 2.0)` squares each channel.
