/**
 * Colours and the image buffer: `Rgba` with its componentwise operations, and `Image`, a
 * flat row-major buffer holding four floats (r, g, b, a) per pixel.
 */
module Image {
  import opened Util

  datatype Rgba = Rgba(r: real, g: real, b: real, a: real)

  const Zero: Rgba := Rgba(0.0, 0.0, 0.0, 0.0)
  const One: Rgba := Rgba(1.0, 1.0, 1.0, 1.0)

  /** Channel k of a colour, in buffer order r, g, b, a. */
  function Channel(c: Rgba, k: nat): real
    requires k < 4
  {
    if k == 0 then c.r else if k == 1 then c.g else if k == 2 then c.b else c.a
  }

  function Splat(v: real): (c: Rgba)
    ensures forall k :: 0 <= k < 4 ==> Channel(c, k) == v
  {
    Rgba(v, v, v, v)
  }

  /** `impl Add for Rgba`. */
  function Add(c: Rgba, d: Rgba): (s: Rgba)
    ensures forall k :: 0 <= k < 4 ==> Channel(s, k) == Channel(c, k) + Channel(d, k)
  {
    Rgba(c.r + d.r, c.g + d.g, c.b + d.b, c.a + d.a)
  }

  /** `impl Mul for Rgba`. */
  function Mul(c: Rgba, d: Rgba): (p: Rgba)
    ensures forall k :: 0 <= k < 4 ==> Channel(p, k) == Channel(c, k) * Channel(d, k)
  {
    Rgba(c.r * d.r, c.g * d.g, c.b * d.b, c.a * d.a)
  }

  /** `impl Mul<f32> for Rgba`. */
  function Scale(c: Rgba, t: real): (p: Rgba)
    ensures forall k :: 0 <= k < 4 ==> Channel(p, k) == Channel(c, k) * t
  {
    Rgba(c.r * t, c.g * t, c.b * t, c.a * t)
  }

  lemma ZeroIsAdditiveIdentity(c: Rgba)
    ensures Add(c, Zero) == c && Add(Zero, c) == c
  {
  }

  lemma OneIsMultiplicativeIdentity(c: Rgba)
    ensures Mul(c, One) == c && Mul(One, c) == c
  {
  }

  /**
   * `Rgba::gamma_correct`: every channel, alpha included, is divided by the sample count and then
   * raised to the power `gamma` (not 1/gamma). A zero count divides by zero in f32 and is excluded.
   */
  function GammaCorrect(c: Rgba, numSamples: nat, gamma: real, powf: (real, real) -> real): (g: Rgba)
    requires numSamples > 0
    ensures forall k :: 0 <= k < 4 ==> Channel(g, k) == powf(Channel(c, k) / numSamples as real, gamma)
  {
    var n := numSamples as real;
    Rgba(powf(c.r / n, gamma), powf(c.g / n, gamma), powf(c.b / n, gamma), powf(c.a / n, gamma))
  }

  /**
   * The renderers call `gamma_correct(1, 2.0)`: when powf is exact, each channel is squared,
   * so the per-sample correction darkens values in (0, 1) rather than taking a square root.
   */
  lemma GammaCorrectSquares(c: Rgba, powf: (real, real) -> real)
    requires forall t :: powf(t, 2.0) == t * t
    ensures GammaCorrect(c, 1, 2.0, powf) == Mul(c, c)
  {
    assert c.r / 1.0 == c.r && c.g / 1.0 == c.g && c.b / 1.0 == c.b && c.a / 1.0 == c.a;
  }

  /** `Rgba::to_array`: the four channels in buffer order. */
  function ToArray(c: Rgba): (s: seq<real>)
    ensures |s| == 4 && forall k :: 0 <= k < 4 ==> s[k] == Channel(c, k)
  {
    [c.r, c.g, c.b, c.a]
  }

  /** Buffer layout: the concatenation of the channel quadruples of a row-major pixel sequence. */
  function Flatten(cs: seq<Rgba>): (s: seq<real>)
    ensures |s| == 4 * |cs|
  {
    if |cs| == 0 then [] else Flatten(cs[..|cs| - 1]) + ToArray(cs[|cs| - 1])
  }

  /** Slot 4m + k of a flattened buffer is channel k of pixel m. */
  lemma {:induction false} FlattenAt(cs: seq<Rgba>, m: nat, k: nat)
    requires m < |cs| && k < 4
    ensures Flatten(cs)[4 * m + k] == Channel(cs[m], k)
  {
    var last := |cs| - 1;
    if m < last {
      FlattenAt(cs[..last], m, k);
      assert cs[..last][m] == cs[m];
    }
  }

  /** First slot of pixel (x, y): `width * y * 4 + x * 4`. */
  function PixelIndex(width: nat, x: nat, y: nat): nat {
    width * y * 4 + x * 4
  }

  /** Pixel (x, y) starts at slot 4 times its row-major position. */
  lemma PixelIndexRowMajor(width: nat, x: nat, y: nat)
    ensures PixelIndex(width, x, y) == 4 * (y * width + x)
  {
  }

  /** For a pixel inside the image the whole four-slot window lies inside the buffer. */
  lemma PixelWindowInBounds(width: nat, height: nat, x: nat, y: nat)
    requires x < width && y < height
    ensures PixelIndex(width, x, y) + 3 < width * height * 4
  {
    assert y * width + x < height * width by {
      assert y * width + x < y * width + width == (y + 1) * width;
      assert (y + 1) * width <= height * width;
    }
  }

  /** Two distinct pixels inside a row have disjoint windows. */
  lemma PixelWindowsDisjoint(width: nat, x1: nat, y1: nat, x2: nat, y2: nat)
    requires x1 < width && x2 < width && (x1, y1) != (x2, y2)
    ensures PixelIndex(width, x1, y1) + 3 < PixelIndex(width, x2, y2)
         || PixelIndex(width, x2, y2) + 3 < PixelIndex(width, x1, y1)
  {
    var p1, p2 := y1 * width + x1, y2 * width + x2;
    if y1 < y2 {
      assert p1 < p2 by {
        assert p1 < (y1 + 1) * width && (y1 + 1) * width <= y2 * width;
      }
    } else if y2 < y1 {
      assert p2 < p1 by {
        assert p2 < (y2 + 1) * width && (y2 + 1) * width <= y1 * width;
      }
    }
  }

  /** The colour stored at pixel (x, y) of a buffer. */
  function ReadPixel(s: seq<real>, width: nat, x: nat, y: nat): Rgba
    requires PixelIndex(width, x, y) + 3 < |s|
  {
    var i := PixelIndex(width, x, y);
    Rgba(s[i], s[i + 1], s[i + 2], s[i + 3])
  }

  /** The buffer after storing c at pixel (x, y): exactly the four slots of the window change. */
  function WritePixel(s: seq<real>, width: nat, x: nat, y: nat, c: Rgba): (t: seq<real>)
    requires PixelIndex(width, x, y) + 3 < |s|
    ensures |t| == |s|
    ensures forall q :: 0 <= q < |s| ==>
      t[q] == if PixelIndex(width, x, y) <= q < PixelIndex(width, x, y) + 4
              then Channel(c, q - PixelIndex(width, x, y)) else s[q]
  {
    var i := PixelIndex(width, x, y);
    s[i := c.r][i + 1 := c.g][i + 2 := c.b][i + 3 := c.a]
  }

  /** Reading back a pixel just written gives the colour written. */
  lemma ReadAfterWrite(s: seq<real>, width: nat, x: nat, y: nat, c: Rgba)
    requires PixelIndex(width, x, y) + 3 < |s|
    ensures ReadPixel(WritePixel(s, width, x, y, c), width, x, y) == c
  {
  }

  /** Writing one pixel leaves every other pixel of the image as it was. */
  lemma ReadAfterOtherWrite(s: seq<real>, width: nat, height: nat, x: nat, y: nat, x2: nat, y2: nat, c: Rgba)
    requires |s| == width * height * 4
    requires x < width && y < height && x2 < width && y2 < height && (x, y) != (x2, y2)
    ensures PixelIndex(width, x, y) + 3 < |s| && PixelIndex(width, x2, y2) + 3 < |s|
    ensures ReadPixel(WritePixel(s, width, x, y, c), width, x2, y2) == ReadPixel(s, width, x2, y2)
  {
    PixelWindowInBounds(width, height, x, y);
    PixelWindowInBounds(width, height, x2, y2);
    PixelWindowsDisjoint(width, x, y, x2, y2);
  }

  /** The four slots 4m..4m+3 of a flattened buffer hold pixel m. */
  lemma FlattenWindow(cs: seq<Rgba>, m: nat)
    requires m < |cs|
    ensures 4 * m + 3 < |Flatten(cs)|
    ensures Rgba(Flatten(cs)[4 * m], Flatten(cs)[4 * m + 1], Flatten(cs)[4 * m + 2], Flatten(cs)[4 * m + 3]) == cs[m]
  {
    FlattenAt(cs, m, 0);
    FlattenAt(cs, m, 1);
    FlattenAt(cs, m, 2);
    FlattenAt(cs, m, 3);
  }

  /** A pixel inside the image has a row-major position inside the pixel sequence. */
  lemma RowMajorInBounds(width: nat, height: nat, x: nat, y: nat)
    requires x < width && y < height
    ensures y * width + x < width * height
  {
    assert y * width + x < (y + 1) * width <= height * width;
  }

  /** A flattened row-major pixel sequence is laid out exactly as `set_pixel_color` indexes it. */
  lemma FlattenMatchesPixelIndex(cs: seq<Rgba>, width: nat, height: nat, x: nat, y: nat)
    requires |cs| == width * height && x < width && y < height
    ensures PixelIndex(width, x, y) + 3 < |Flatten(cs)|
    ensures ReadPixel(Flatten(cs), width, x, y) == cs[y * width + x]
  {
    RowMajorInBounds(width, height, x, y);
    PixelIndexRowMajor(width, x, y);
    FlattenWindow(cs, y * width + x);
  }

  /** `Image`: width, height and the flat RGBA buffer of `width * height * 4` floats. */
  class Image {
    const width: nat
    const height: nat
    var data: array<real>

    ghost predicate Valid()
      reads this
    {
      data.Length == width * height * 4
    }

    /** `Image::new`: a zeroed buffer of `width * height * 4` slots. */
    constructor (width: nat, height: nat)
      ensures Valid() && fresh(data)
      ensures this.width == width && this.height == height
      ensures |data[..]| == width * height * 4
      ensures forall q :: 0 <= q < data.Length ==> data[q] == 0.0
    {
      this.width := width;
      this.height := height;
      data := new real[width * height * 4](_ => 0.0);
    }

    /**
     * `Image::from_vec`. The source asserts that the vector has `width * height * 4` slots and
     * panics otherwise; here the panic is the None result.
     */
    static method FromVec(width: nat, height: nat, data: seq<real>) returns (r: Option<Image>)
      ensures r.None? <==> |data| != width * height * 4
      ensures r.Some? ==> fresh(r.value) && fresh(r.value.data) && r.value.Valid()
      ensures r.Some? ==> r.value.width == width && r.value.height == height && r.value.data[..] == data
    {
      if |data| != width * height * 4 {
        return None;
      }
      var img := new Image(width, height);
      img.data := new real[|data|](q requires 0 <= q < |data| => data[q]);
      return Some(img);
    }

    /**
     * `Image::set_pixel_color`. The source indexes the buffer with bounds checks, so it demands that
     * the four slots exist; it does not itself check x < width.
     */
    method SetPixelColor(x: nat, y: nat, c: Rgba)
      requires PixelIndex(width, x, y) + 3 < data.Length
      modifies data
      ensures data[..] == WritePixel(old(data[..]), width, x, y, c)
    {
      var index := width * y * 4 + x * 4;
      data[index + 0] := c.r;
      data[index + 1] := c.g;
      data[index + 2] := c.b;
      data[index + 3] := c.a;
    }

    /** `Image::get_pixel_color`: reads the four slots of the window; the buffer is not modified. */
    function GetPixelColor(x: nat, y: nat): (c: Rgba)
      reads this, data
      requires PixelIndex(width, x, y) + 3 < data.Length
      ensures c == ReadPixel(data[..], width, x, y)
    {
      var index := width * y * 4 + x * 4;
      Rgba(data[index + 0], data[index + 1], data[index + 2], data[index + 3])
    }
  }
}
