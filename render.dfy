/**
 * The progressive and parallel renderers, reduced to what they do with samples: each `render`
 * call takes one sample per pixel, gamma-corrects it, and folds it into the image with the
 * running-mean update, then counts the frame.
 *
 * The sample source (camera ray plus `World::ray_color`) is a parameter: `samples[y * width + x]`
 * is the linear-radiance sample for pixel (x, y), which is also the order in which the
 * progressive renderer's loops (row y outer, column x inner) consume their random stream.
 */
module Render {
  import opened Image

  /** Every sample after `gamma_correct(1, 2.0)`. */
  function Corrected(samples: seq<Rgba>, powf: (real, real) -> real): (cs: seq<Rgba>)
    ensures |cs| == |samples|
    ensures forall k :: 0 <= k < |samples| ==> cs[k] == GammaCorrect(samples[k], 1, 2.0, powf)
  {
    seq(|samples|, k requires 0 <= k < |samples| => GammaCorrect(samples[k], 1, 2.0, powf))
  }

  /** One frame as a flat buffer: the corrected samples, four slots per pixel, row-major. */
  function FrameData(samples: seq<Rgba>, powf: (real, real) -> real): (f: seq<real>)
    ensures |f| == 4 * |samples|
  {
    Flatten(Corrected(samples, powf))
  }

  /**
   * The update of one slot holding `prev` after n samples when sample s arrives: the first sample
   * is stored as it is, later ones give `(prev * n + s) * (1 / (n + 1))`.
   */
  function BlendSlot(prev: real, s: real, n: nat): real {
    if n == 0 then s else (prev * n as real + s) * (1.0 / (n as real + 1.0))
  }

  /** The first-sample branch agrees with the general formula at n = 0. */
  lemma FirstSampleAgrees(prev: real, s: real)
    ensures BlendSlot(prev, s, 0) == (prev * 0.0 + s) * (1.0 / (0.0 + 1.0))
  {
  }

  /** The whole buffer after blending frame f into it. */
  function Blend(prev: seq<real>, f: seq<real>, n: nat): (b: seq<real>)
    requires |f| == |prev|
    ensures |b| == |prev|
    ensures forall q :: 0 <= q < |prev| ==> b[q] == BlendSlot(prev[q], f[q], n)
  {
    seq(|prev|, q requires 0 <= q < |prev| => BlendSlot(prev[q], f[q], n))
  }

  /** The buffer when the first d pixels (4 * d slots) have been blended. */
  function PartialBlend(prev: seq<real>, f: seq<real>, n: nat, d: nat): (b: seq<real>)
    requires |f| == |prev|
    ensures |b| == |prev|
  {
    seq(|prev|, q requires 0 <= q < |prev| => if q < 4 * d then BlendSlot(prev[q], f[q], n) else prev[q])
  }

  /** Once every pixel is blended, the partial blend is the whole blend. */
  lemma PartialBlendComplete(prev: seq<real>, f: seq<real>, n: nat, d: nat)
    requires |f| == |prev| == 4 * d
    ensures PartialBlend(prev, f, n, d) == Blend(prev, f, n)
  {
  }

  ghost predicate AllLength(frames: seq<seq<real>>, len: nat) {
    forall i :: 0 <= i < |frames| ==> |frames[i]| == len
  }

  /** The sum of slot q over all frames. */
  ghost function SumAt(frames: seq<seq<real>>, q: nat): real
    requires forall i :: 0 <= i < |frames| ==> q < |frames[i]|
  {
    if |frames| == 0 then 0.0 else SumAt(frames[..|frames| - 1], q) + frames[|frames| - 1][q]
  }

  /** The arithmetic mean of slot q over the frames; 0 before the first frame. */
  ghost function MeanAt(frames: seq<seq<real>>, q: nat): real
    requires forall i :: 0 <= i < |frames| ==> q < |frames[i]|
  {
    if |frames| == 0 then 0.0 else SumAt(frames, q) / (|frames| as real)
  }

  /** The image whose every slot is the mean of that slot over the frames. */
  ghost function MeanImage(frames: seq<seq<real>>, len: nat): (img: seq<real>)
    requires AllLength(frames, len)
    ensures |img| == len
  {
    seq(len, q requires 0 <= q < len => MeanAt(frames, q))
  }

  /** The arithmetic behind the running mean: (mean * n + x) / (n + 1) is the mean of n + 1 values. */
  lemma MeanUpdate(sum: real, x: real, n: real)
    requires n > 0.0
    ensures ((sum / n) * n + x) * (1.0 / (n + 1.0)) == (sum + x) / (n + 1.0)
  {
    assert (sum / n) * n == sum;
  }

  /** The running-mean step on one slot: blending the (n+1)-th value into the mean of n gives the mean of n+1. */
  lemma BlendSlotIsRunningMean(frames: seq<seq<real>>, f: seq<real>, q: nat)
    requires forall i :: 0 <= i < |frames| ==> q < |frames[i]|
    requires q < |f|
    ensures forall i :: 0 <= i < |frames + [f]| ==> q < |(frames + [f])[i]|
    ensures BlendSlot(MeanAt(frames, q), f[q], |frames|) == MeanAt(frames + [f], q)
  {
    var all := frames + [f];
    assert all[..|all| - 1] == frames;
    var n := |frames| as real;
    if |frames| == 0 {
      assert SumAt(all, q) == 0.0 + f[q];
    } else {
      var sum := SumAt(frames, q);
      assert SumAt(all, q) == sum + f[q];
      assert MeanAt(frames, q) == sum / n;
      MeanUpdate(sum, f[q], n);
    }
  }

  /** Blending a frame into the mean image of the earlier frames gives the mean image of all of them. */
  lemma BlendIsRunningMean(frames: seq<seq<real>>, f: seq<real>, len: nat)
    requires AllLength(frames, len) && |f| == len
    ensures AllLength(frames + [f], len)
    ensures Blend(MeanImage(frames, len), f, |frames|) == MeanImage(frames + [f], len)
  {
    assert AllLength(frames + [f], len) by {
      forall i | 0 <= i < |frames + [f]|
        ensures |(frames + [f])[i]| == len
      {
        if i < |frames| { assert (frames + [f])[i] == frames[i]; }
      }
    }
    forall q | 0 <= q < len
      ensures Blend(MeanImage(frames, len), f, |frames|)[q] == MeanImage(frames + [f], len)[q]
    {
      BlendSlotIsRunningMean(frames, f, q);
    }
  }

  /** n identical frames sum to n times that frame. */
  lemma {:induction false} SumOfIdentical(frames: seq<seq<real>>, f: seq<real>, q: nat)
    requires forall i :: 0 <= i < |frames| ==> frames[i] == f
    requires q < |f|
    ensures forall i :: 0 <= i < |frames| ==> q < |frames[i]|
    ensures SumAt(frames, q) == (|frames| as real) * f[q]
  {
    if |frames| > 0 {
      var init := frames[..|frames| - 1];
      SumOfIdentical(init, f, q);
      assert SumAt(frames, q) == (|init| as real) * f[q] + f[q];
    }
  }

  /** Accumulating the same frame any positive number of times leaves exactly that frame. */
  lemma MeanOfIdenticalFrames(frames: seq<seq<real>>, f: seq<real>)
    requires |frames| > 0 && forall i :: 0 <= i < |frames| ==> frames[i] == f
    ensures AllLength(frames, |f|)
    ensures MeanImage(frames, |f|) == f
  {
    forall q | 0 <= q < |f|
      ensures MeanAt(frames, q) == f[q]
    {
      SumOfIdentical(frames, f, q);
      var n := |frames| as real;
      assert (n * f[q]) / n == f[q];
    }
  }

  /**
   * The colour `render` stores: the sample itself on the first frame, otherwise
   * `(prev * n + s) * (1 / (n + 1))`; channel by channel it is the slot update.
   */
  function BlendColor(prev: Rgba, s: Rgba, n: nat): (c: Rgba)
    ensures forall k :: 0 <= k < 4 ==> Channel(c, k) == BlendSlot(Channel(prev, k), Channel(s, k), n)
  {
    if n == 0 then s else Scale(Add(Scale(prev, n as real), s), 1.0 / (n as real + 1.0))
  }

  /**
   * Pixel d of a buffer whose first d pixels are blended: overwriting its four slots with the
   * blend of what they hold and pixel d of the frame f (the colour px) extends the blended prefix
   * by one pixel.
   */
  lemma BlendWindowStep(prev: seq<real>, f: seq<real>, px: Rgba, n: nat, d: nat, after: seq<real>)
    requires |f| == |prev| == |after| && 4 * d + 3 < |prev|
    requires Rgba(f[4 * d], f[4 * d + 1], f[4 * d + 2], f[4 * d + 3]) == px
    requires var cur := PartialBlend(prev, f, n, d);
             var c := BlendColor(Rgba(cur[4 * d], cur[4 * d + 1], cur[4 * d + 2], cur[4 * d + 3]), px, n);
             forall q :: 0 <= q < |prev| ==> after[q] == if 4 * d <= q < 4 * d + 4 then Channel(c, q - 4 * d) else cur[q]
    ensures after == PartialBlend(prev, f, n, d + 1)
  {
    var cur := PartialBlend(prev, f, n, d);
    var held := Rgba(cur[4 * d], cur[4 * d + 1], cur[4 * d + 2], cur[4 * d + 3]);
    var c := BlendColor(held, px, n);
    var target := PartialBlend(prev, f, n, d + 1);
    forall q | 0 <= q < |prev|
      ensures after[q] == target[q]
    {
      if 4 * d <= q < 4 * d + 4 {
        var k := q - 4 * d;
        assert cur[q] == prev[q];
        assert Channel(held, k) == prev[q] && Channel(px, k) == f[q] by {
          if k == 0 { assert q == 4 * d; }
          else if k == 1 { assert q == 4 * d + 1; }
          else if k == 2 { assert q == 4 * d + 2; }
          else { assert q == 4 * d + 3; }
        }
        assert after[q] == Channel(c, k) == BlendSlot(prev[q], f[q], n);
      }
    }
  }

  /**
   * Pixel (x, y) is pixel d = y * width + x of the frame: reading it from the half-blended buffer,
   * blending in its corrected sample and writing it back extends the blended prefix by one pixel.
   */
  lemma BlendPixelStep(prev: seq<real>, cs: seq<Rgba>, n: nat, width: nat, height: nat, x: nat, y: nat)
    requires |cs| == width * height && |prev| == 4 * |cs| && x < width && y < height
    ensures y * width + x < |cs| && PixelIndex(width, x, y) + 3 < |prev|
    ensures var d := y * width + x;
            var cur := PartialBlend(prev, Flatten(cs), n, d);
            WritePixel(cur, width, x, y, BlendColor(ReadPixel(cur, width, x, y), cs[d], n))
              == PartialBlend(prev, Flatten(cs), n, d + 1)
  {
    RowMajorInBounds(width, height, x, y);
    PixelIndexRowMajor(width, x, y);
    var d := y * width + x;
    FlattenWindow(cs, d);
    var cur := PartialBlend(prev, Flatten(cs), n, d);
    BlendWindowStep(prev, Flatten(cs), cs[d], n, d, WritePixel(cur, width, x, y, BlendColor(ReadPixel(cur, width, x, y), cs[d], n)));
  }

  /** `ProgressiveRenderer`: blends one frame per call, pixel by pixel, through `set_pixel_color`. */
  class ProgressiveRenderer {
    const width: nat
    const height: nat
    const maxRayDepth: nat
    const image: Image
    var numSamples: nat
    /** The corrected frames folded in so far, oldest first. */
    ghost var frames: seq<seq<real>>

    /** The image has the renderer's size and every slot holds the mean of that slot over the frames. */
    ghost predicate Valid()
      reads this, image, image.data
    {
      image.width == width && image.height == height && image.Valid()
      && numSamples == |frames| && AllLength(frames, width * height * 4)
      && image.data[..] == MeanImage(frames, width * height * 4)
    }

    /** `ProgressiveRenderer::new`: no samples yet and a zeroed image. */
    constructor (width: nat, height: nat, maxRayDepth: nat)
      ensures Valid() && fresh(image) && fresh(image.data)
      ensures this.width == width && this.height == height && this.maxRayDepth == maxRayDepth
      ensures numSamples == 0 && frames == []
      ensures image.data[..] == seq(width * height * 4, _ => 0.0)
    {
      this.width := width;
      this.height := height;
      this.maxRayDepth := maxRayDepth;
      image := new Image(width, height);
      numSamples := 0;
      frames := [];
    }

    /**
     * The inner-loop body of `render` for pixel (x, y): the first sample is written as it is,
     * later ones are blended with the colour read back from the image.
     */
    method StorePixel(x: nat, y: nat, pixelRgb: Rgba)
      requires image.Valid() && image.width == width && image.height == height
      requires x < width && y < height
      modifies image.data
      ensures PixelIndex(width, x, y) + 3 < |old(image.data[..])|
      ensures image.data[..] == WritePixel(old(image.data[..]), width, x, y,
                                           BlendColor(ReadPixel(old(image.data[..]), width, x, y), pixelRgb, numSamples))
    {
      PixelWindowInBounds(width, height, x, y);
      if numSamples == 0 {
        image.SetPixelColor(x, y, pixelRgb);
      } else {
        var oldRgb := image.GetPixelColor(x, y);
        var newRgb := Scale(Add(Scale(oldRgb, numSamples as real), pixelRgb), 1.0 / (numSamples as real + 1.0));
        image.SetPixelColor(x, y, newRgb);
      }
    }

    /**
     * Row y of `render`, whose first pixel is pixel `base` = y * width of the frame: column x runs
     * from 0 to width - 1, and each pixel extends the blended prefix.
     */
    method RenderRow(y: nat, samples: seq<Rgba>, powf: (real, real) -> real, ghost start: seq<real>, cs: seq<Rgba>, ghost base: nat)
      requires image.Valid() && image.width == width && image.height == height && y < height && base == y * width
      requires |samples| == width * height && cs == Corrected(samples, powf) && |start| == 4 * |cs|
      requires image.data[..] == PartialBlend(start, Flatten(cs), numSamples, base)
      modifies image.data
      ensures image.data[..] == PartialBlend(start, Flatten(cs), numSamples, base + width)
    {
      var x := 0;
      while x < width
        invariant 0 <= x <= width
        invariant image.data[..] == PartialBlend(start, Flatten(cs), numSamples, base + x)
      {
        BlendPixelStep(start, cs, numSamples, width, height, x, y);
        var pixelRgb := GammaCorrect(samples[y * width + x], 1, 2.0, powf);
        StorePixel(x, y, pixelRgb);
        x := x + 1;
      }
    }

    /**
     * `ProgressiveRenderer::render`: visits every pixel once, row y outer and column x inner,
     * writes the first sample directly and blends later ones, then counts the frame.
     */
    method Render(samples: seq<Rgba>, powf: (real, real) -> real)
      requires Valid() && |samples| == width * height
      modifies this, image.data
      ensures Valid()
      ensures numSamples == old(numSamples) + 1
      ensures frames == old(frames) + [FrameData(samples, powf)]
      ensures image.data[..] == Blend(old(image.data[..]), FrameData(samples, powf), old(numSamples))
    {
      ghost var start := image.data[..];
      var cs := Corrected(samples, powf);
      ghost var f := Flatten(cs);
      var n := numSamples;
      var j := 0;
      while j < height
        invariant 0 <= j <= height
        invariant numSamples == n && frames == old(frames)
        invariant image.data[..] == PartialBlend(start, f, n, j * width)
      {
        RenderRow(j, samples, powf, start, cs, j * width);
        assert j * width + width == (j + 1) * width;
        j := j + 1;
      }
      PartialBlendComplete(start, f, n, height * width);
      BlendIsRunningMean(frames, f, width * height * 4);
      numSamples := numSamples + 1;
      frames := frames + [f];
    }
  }

  /**
   * `ParallelRenderer`: computes a whole frame first (the per-row work that the source spreads over
   * threads is the sequential FrameData here) and then merges it into the buffer in one pass.
   */
  class ParallelRenderer {
    const width: nat
    const height: nat
    const maxRayDepth: nat
    const image: Image
    var numSamples: nat
    ghost var frames: seq<seq<real>>

    ghost predicate Valid()
      reads this, image, image.data
    {
      image.width == width && image.height == height && image.Valid()
      && numSamples == |frames| && AllLength(frames, width * height * 4)
      && image.data[..] == MeanImage(frames, width * height * 4)
    }

    /** `ParallelRenderer::new`: no samples yet and a zeroed image. */
    constructor (width: nat, height: nat, maxRayDepth: nat)
      ensures Valid() && fresh(image) && fresh(image.data)
      ensures this.width == width && this.height == height && this.maxRayDepth == maxRayDepth
      ensures numSamples == 0 && frames == []
      ensures image.data[..] == seq(width * height * 4, _ => 0.0)
    {
      this.width := width;
      this.height := height;
      this.maxRayDepth := maxRayDepth;
      image := new Image(width, height);
      numSamples := 0;
      frames := [];
    }

    /** The merge pass of `ParallelRenderer::render`: every slot gets the running-mean update in place. */
    static method MergeFrame(buf: array<real>, imgData: seq<real>, numSamples: nat)
      requires buf.Length == |imgData|
      modifies buf
      ensures buf[..] == Blend(old(buf[..]), imgData, numSamples)
    {
      ghost var start := buf[..];
      var n := numSamples as real;
      var k := 0;
      while k < buf.Length
        invariant 0 <= k <= buf.Length
        invariant forall q :: 0 <= q < k ==> buf[q] == BlendSlot(start[q], imgData[q], numSamples)
        invariant forall q :: k <= q < buf.Length ==> buf[q] == start[q]
      {
        buf[k] := (buf[k] * n + imgData[k]) * (1.0 / (n + 1.0));
        k := k + 1;
      }
    }

    /**
     * `ParallelRenderer::render`: on the first call the frame buffer replaces `image.data`; later
     * calls blend it in slot by slot with the same running-mean formula. The length never changes.
     */
    method Render(samples: seq<Rgba>, powf: (real, real) -> real)
      requires Valid() && |samples| == width * height
      modifies this, image, image.data
      ensures Valid()
      ensures numSamples == old(numSamples) + 1
      ensures frames == old(frames) + [FrameData(samples, powf)]
      ensures image.data.Length == old(image.data.Length)
      ensures image.data[..] == Blend(old(image.data[..]), FrameData(samples, powf), old(numSamples))
      ensures old(numSamples) == 0 ==> fresh(image.data)
      ensures old(numSamples) != 0 ==> image.data == old(image.data)
    {
      ghost var start := image.data[..];
      var imgData := FrameData(samples, powf);
      if numSamples == 0 {
        image.data := new real[|imgData|](q requires 0 <= q < |imgData| => imgData[q]);
      } else {
        MergeFrame(image.data, imgData, numSamples);
      }
      assert image.data[..] == Blend(start, imgData, numSamples);
      BlendIsRunningMean(frames, imgData, width * height * 4);
      numSamples := numSamples + 1;
      frames := frames + [imgData];
    }
  }
}
