/**
 * Perlin noise: the lattice tables (`PerlinData`), the Durstenfeld shuffle that builds the
 * permutation tables, the hashed lattice lookup, trilinear Hermite interpolation and the
 * turbulence octave sum, plus the `Noise` enum that dispatches between the two.
 *
 * Random numbers come from two streams given as inputs: `draws` (floats in [0, 1), consumed by
 * `ranvec`) and `picks` (integers, reduced to the shuffle's inclusive range `0..=i`).
 */
module Noise {
  import opened Util
  import opened Geometry

  /** `PerlinData::POINT_COUNT`. */
  const PointCount: nat := 256

  /** The identity table 0, 1, ..., n-1. */
  function Iota(n: nat): (s: seq<nat>)
    ensures |s| == n && forall i :: 0 <= i < n ==> s[i] == i
  {
    seq(n, i => i)
  }

  /** A table holding each of 0..n-1 exactly once. */
  ghost predicate IsPermutation(s: seq<nat>, n: nat) {
    multiset(s) == multiset(Iota(n))
  }

  /** A permutation of 0..n-1 has length n, entries below n, and every value below n occurs in it. */
  lemma PermutationFacts(s: seq<nat>, n: nat)
    requires IsPermutation(s, n)
    ensures |s| == n
    ensures forall i :: 0 <= i < |s| ==> s[i] < n
    ensures forall v :: 0 <= v < n ==> v in s
  {
    assert |s| == |multiset(s)| == |multiset(Iota(n))| == n;
    forall i | 0 <= i < |s| ensures s[i] < n {
      assert s[i] in multiset(Iota(n));
    }
    forall v | 0 <= v < n ensures v in s {
      assert Iota(n)[v] == v;
      assert v in multiset(Iota(n));
    }
  }

  /** The lattice tables: 256 gradient vectors and three permutation tables with entries below 256. */
  datatype PerlinData = PerlinData(ranvec: seq<Vec3>, permX: seq<nat>, permY: seq<nat>, permZ: seq<nat>)

  predicate TableOk(p: seq<nat>) {
    |p| == PointCount && forall i :: 0 <= i < |p| ==> p[i] < PointCount
  }

  predicate Wf(d: PerlinData) {
    |d.ranvec| == PointCount && TableOk(d.permX) && TableOk(d.permY) && TableOk(d.permZ)
  }

  /** Exchange of entries a and b. */
  function Swap(s: seq<nat>, a: nat, b: nat): (t: seq<nat>)
    requires a < |s| && b < |s|
    ensures |t| == |s| && t[a] == s[b] && t[b] == s[a]
    ensures forall q :: 0 <= q < |s| && q != a && q != b ==> t[q] == s[q]
  {
    seq(|s|, q requires 0 <= q < |s| => if q == a then s[b] else if q == b then s[a] else s[q])
  }

  lemma SwapPreservesMultiset(s: seq<nat>, a: nat, b: nat)
    requires a < |s| && b < |s|
    ensures multiset(Swap(s, a, b)) == multiset(s)
  {
    var t := s[a := s[b]];
    assert Swap(s, a, b) == t[b := s[a]];
    assert multiset(t) == multiset(s) - multiset{s[a]} + multiset{s[b]};
    assert multiset(t[b := s[a]]) == multiset(t) - multiset{t[b]} + multiset{s[a]};
  }

  /** The target drawn in iteration k of a shuffle of n entries: `gen_range(0..=n-1-k)` on draw pos + k. */
  function Target(n: nat, k: nat, picks: nat -> nat, pos: nat): (t: nat)
    requires k < n
    ensures t < n - k
  {
    picks(pos + k) % (n - k)
  }

  /**
   * The table after the first k iterations of `permute` over the first n entries: iteration k
   * exchanges index n-1-k with `picks(pos + k) % (n - k)`, a target in 0..=n-1-k.
   */
  function Shuffled(s: seq<nat>, n: nat, picks: nat -> nat, pos: nat, k: nat): (t: seq<nat>)
    requires n <= |s| && k <= n
    ensures |t| == |s|
  {
    if k == 0 then s else Swap(Shuffled(s, n, picks, pos, k - 1), n - k, Target(n, k - 1, picks, pos))
  }

  /** The complete shuffle of the first n entries: all n iterations. */
  function Shuffle(s: seq<nat>, n: nat, picks: nat -> nat, pos: nat): (t: seq<nat>)
    requires n <= |s|
    ensures |t| == |s|
  {
    Shuffled(s, n, picks, pos, n)
  }

  /** Every iteration only exchanges entries, so the shuffle permutes the table. */
  lemma {:induction false} ShuffledPermutes(s: seq<nat>, n: nat, picks: nat -> nat, pos: nat, k: nat)
    requires n <= |s| && k <= n
    ensures multiset(Shuffled(s, n, picks, pos, k)) == multiset(s)
  {
    if k > 0 {
      ShuffledPermutes(s, n, picks, pos, k - 1);
      SwapKeepsMultiset(s, Shuffled(s, n, picks, pos, k - 1), n - k, Target(n, k - 1, picks, pos));
    }
  }

  /** One exchange applied to a table with the multiset of s keeps that multiset. */
  lemma SwapKeepsMultiset(s: seq<nat>, prev: seq<nat>, a: nat, b: nat)
    requires multiset(prev) == multiset(s) && a < |prev| && b < |prev|
    ensures multiset(Swap(prev, a, b)) == multiset(s)
  {
    SwapPreservesMultiset(prev, a, b);
  }

  /** Every exchange stays among the first n entries: the tail past n is left alone. */
  lemma {:induction false} ShuffledKeepsTail(s: seq<nat>, n: nat, picks: nat -> nat, pos: nat, k: nat)
    requires n <= |s| && k <= n
    ensures forall q :: n <= q < |s| ==> Shuffled(s, n, picks, pos, k)[q] == s[q]
  {
    if k > 0 {
      ShuffledKeepsTail(s, n, picks, pos, k - 1);
    }
  }

  /** The exchange in the body of `permute`, through a temporary. */
  method SwapEntries(p: array<nat>, a: nat, b: nat)
    requires a < p.Length && b < p.Length
    modifies p
    ensures p[..] == Swap(old(p[..]), a, b)
  {
    var tmp := p[a];
    p[a] := p[b];
    p[b] := tmp;
  }

  /**
   * `PerlinData::permute`: i runs from n-1 down to 0 and swaps p[i] with p[target] for a target
   * drawn from 0..=i. One draw per index; the position after the last draw is returned.
   */
  method Permute(p: array<nat>, n: nat, picks: nat -> nat, pos: nat) returns (next: nat)
    requires n <= p.Length
    modifies p
    ensures p[..] == Shuffle(old(p[..]), n, picks, pos)
    ensures multiset(p[..]) == multiset(old(p[..]))
    ensures next == pos + n
  {
    ghost var s0 := p[..];
    var i := n;
    next := pos;
    while i > 0
      invariant 0 <= i <= n && next == pos + (n - i)
      invariant p[..] == Shuffled(s0, n, picks, pos, n - i)
    {
      var target := picks(next) % i;
      SwapEntries(p, i - 1, target);
      i := i - 1;
      next := next + 1;
    }
    ShuffledPermutes(s0, n, picks, pos, n);
  }

  /** `PerlinData::generate_perm`: the identity table of 256 entries, shuffled in place. */
  method GeneratePerm(picks: nat -> nat, pos: nat) returns (perm: seq<nat>, next: nat)
    ensures perm == Shuffle(Iota(PointCount), PointCount, picks, pos)
    ensures IsPermutation(perm, PointCount) && TableOk(perm)
    ensures next == pos + PointCount
  {
    var p := new nat[PointCount];
    var i := 0;
    while i < PointCount
      invariant 0 <= i <= PointCount
      invariant forall q :: 0 <= q < i ==> p[q] == q
    {
      p[i] := i;
      i := i + 1;
    }
    assert p[..] == Iota(PointCount);
    next := Permute(p, PointCount, picks, pos);
    perm := p[..];
    PermutationFacts(perm, PointCount);
  }

  /** `sample_unit_sphere` as `PerlinData::new` uses it: three draws, centred and normalised. */
  function RandomUnit(m: Math, draws: nat -> real, pos: nat): Vec3 {
    m.normalize(Vec3(draws(pos) - 0.5, draws(pos + 1) - 0.5, draws(pos + 2) - 0.5))
  }

  /** The `ranvec` fill of `PerlinData::new`: vector k comes from draws 3k, 3k+1 and 3k+2. */
  method RandomVectors(m: Math, draws: nat -> real, pos: nat) returns (ranvec: seq<Vec3>)
    ensures |ranvec| == PointCount
    ensures forall k :: 0 <= k < PointCount ==> ranvec[k] == RandomUnit(m, draws, pos + 3 * k)
  {
    var buf := new Vec3[PointCount](_ => Origin);
    var k := 0;
    while k < PointCount
      invariant 0 <= k <= PointCount
      invariant forall q :: 0 <= q < k ==> buf[q] == RandomUnit(m, draws, pos + 3 * q)
    {
      buf[k] := RandomUnit(m, draws, pos + 3 * k);
      k := k + 1;
    }
    ranvec := buf[..];
  }

  /**
   * `PerlinData::new`: 256 gradient vectors from three float draws each, then the x, y and z
   * tables in that order. Returns the next position of each stream.
   */
  method NewPerlinData(m: Math, draws: nat -> real, pos: nat, picks: nat -> nat, ppos: nat)
    returns (d: PerlinData, next: nat, pnext: nat)
    ensures Wf(d)
    ensures forall k :: 0 <= k < PointCount ==> d.ranvec[k] == RandomUnit(m, draws, pos + 3 * k)
    ensures IsPermutation(d.permX, PointCount) && IsPermutation(d.permY, PointCount)
    ensures IsPermutation(d.permZ, PointCount)
    ensures next == pos + 3 * PointCount && pnext == ppos + 3 * PointCount
  {
    var ranvec := RandomVectors(m, draws, pos);
    var px, py, pz;
    px, pnext := GeneratePerm(picks, ppos);
    py, pnext := GeneratePerm(picks, pnext);
    pz, pnext := GeneratePerm(picks, pnext);
    d := PerlinData(ranvec, px, py, pz);
    next := pos + 3 * PointCount;
  }

  /**
   * `(i + di) & 255` on a two's-complement `isize`: the low eight bits, which is the
   * non-negative remainder modulo 256 for negative lattice coordinates too.
   */
  function Wrap(x: int): (r: nat)
    ensures r < PointCount
    ensures (x - r) % 256 == 0
  {
    x % 256
  }

  /** Bitwise exclusive or of two unsigned integers, one binary digit at a time. */
  function Xor(a: nat, b: nat): nat
    decreases a + b
  {
    if a == 0 then b
    else if b == 0 then a
    else 2 * Xor(a / 2, b / 2) + (a % 2 + b % 2) % 2
  }

  /** 2 to the power k. */
  function Pow2(k: nat): (r: nat)
    ensures r >= 1
  {
    if k == 0 then 1 else 2 * Pow2(k - 1)
  }

  /** Exclusive or never sets a bit above the operands' highest bit: below 2^k in, below 2^k out. */
  lemma {:induction false} XorBelow(a: nat, b: nat, k: nat)
    requires a < Pow2(k) && b < Pow2(k)
    ensures Xor(a, b) < Pow2(k)
    decreases a + b
  {
    if a != 0 && b != 0 {
      assert k > 0;
      XorBelow(a / 2, b / 2, k - 1);
    }
  }

  /** Exclusive or is commutative, as the order of the three lookups does not matter. */
  lemma {:induction false} XorCommutes(a: nat, b: nat)
    ensures Xor(a, b) == Xor(b, a)
    decreases a + b
  {
    if a != 0 && b != 0 {
      XorCommutes(a / 2, b / 2);
    }
  }

  /** The hash `perm_x[..] ^ perm_y[..] ^ perm_z[..]`, evaluated left to right. */
  function Hash(a: nat, b: nat, c: nat): nat {
    Xor(Xor(a, b), c)
  }

  /** The exclusive or of three table entries stays below 256, so it indexes `ranvec`. */
  lemma HashInBounds(a: nat, b: nat, c: nat)
    requires a < PointCount && b < PointCount && c < PointCount
    ensures Hash(a, b, c) < PointCount
  {
    assert Pow2(8) == PointCount;
    XorBelow(a, b, 8);
    XorBelow(Xor(a, b), c, 8);
  }

  /** The gradient stored at corner (i + di, j + dj, k + dk) of the lattice cell. */
  function Corner(d: PerlinData, i: int, j: int, k: int, di: nat, dj: nat, dk: nat): (g: Vec3)
    requires Wf(d)
    ensures g in d.ranvec
  {
    var a, b, c := d.permX[Wrap(i + di)], d.permY[Wrap(j + dj)], d.permZ[Wrap(k + dk)];
    HashInBounds(a, b, c);
    d.ranvec[Hash(a, b, c)]
  }

  /** The Hermite smoothing `t * t * (3 - 2t)`. */
  function Smooth(t: real): real { t * t * (3.0 - 2.0 * t) }

  /** The trilinear weight of offset i along one axis with smoothed fraction s. */
  function AxisWeight(i: nat, s: real): real {
    i as real * s + (1 - i) as real * (1.0 - s)
  }

  /**
   * Term (i, j, k) of `perlin_interp`: the trilinear weight of the corner times the dot product
   * of its gradient g with the offset `(u - i, v - j, w - k)` from that corner.
   */
  function InterpTerm(g: Vec3, u: real, v: real, w: real, i: nat, j: nat, k: nat): real {
    AxisWeight(i, Smooth(u)) * AxisWeight(j, Smooth(v)) * AxisWeight(k, Smooth(w))
    * Dot(g, Vec3(u - i as real, v - j as real, w - k as real))
  }

  /** The accumulator of `perlin_interp` after its first t terms, corner t = 4i + 2j + k in loop order. */
  function InterpSum(c: seq<Vec3>, u: real, v: real, w: real, t: nat): real
    requires |c| == 8 && t <= 8
  {
    if t == 0 then 0.0
    else InterpSum(c, u, v, w, t - 1) + InterpTerm(c[t - 1], u, v, w, (t - 1) / 4, ((t - 1) / 2) % 2, (t - 1) % 2)
  }

  /**
   * The value of `perlin_interp`: all eight terms. (The count is |c| rather than the literal 8
   * so that the verifier unfolds the sum only on demand.)
   */
  function Interp(c: seq<Vec3>, u: real, v: real, w: real): real
    requires |c| == 8
  {
    InterpSum(c, u, v, w, |c|)
  }

  /** One step of the interpolation loop adds the term of corner (i, j, k). */
  lemma InterpStep(c: seq<Vec3>, u: real, v: real, w: real, i: nat, j: nat, k: nat)
    requires |c| == 8 && i < 2 && j < 2 && k < 2
    ensures InterpSum(c, u, v, w, 4 * i + 2 * j + k + 1)
         == InterpSum(c, u, v, w, 4 * i + 2 * j + k) + InterpTerm(c[4 * i + 2 * j + k], u, v, w, i, j, k)
  {
    var t := 4 * i + 2 * j + k;
    assert t / 4 == i && (t / 2) % 2 == j && t % 2 == k;
  }

  /** Every term but corner (0, 0, 0) has a zero weight at offsets 0, and that corner's offset is zero. */
  lemma TermVanishesAtCorner(g: Vec3, i: nat, j: nat, k: nat)
    requires i < 2 && j < 2 && k < 2
    ensures InterpTerm(g, 0.0, 0.0, 0.0, i, j, k) == 0.0
  {
    assert Smooth(0.0) == 0.0;
    if i == 0 && j == 0 && k == 0 {
      assert Dot(g, Vec3(0.0, 0.0, 0.0)) == 0.0;
    } else if i == 1 {
      assert AxisWeight(i, 0.0) == 0.0;
    } else if j == 1 {
      assert AxisWeight(j, 0.0) == 0.0;
    } else {
      assert AxisWeight(k, 0.0) == 0.0;
    }
  }

  /** At offsets 0 every prefix of the interpolation sum is zero. */
  lemma {:induction false} InterpSumAtCorner(c: seq<Vec3>, t: nat)
    requires |c| == 8 && t <= 8
    ensures InterpSum(c, 0.0, 0.0, 0.0, t) == 0.0
  {
    if t > 0 {
      InterpSumAtCorner(c, t - 1);
      TermVanishesAtCorner(c[t - 1], (t - 1) / 4, ((t - 1) / 2) % 2, (t - 1) % 2);
    }
  }

  /** At a cell's own corner (offsets 0) the interpolation is zero whatever the gradients. */
  lemma InterpAtCorner(c: seq<Vec3>)
    requires |c| == 8
    ensures Interp(c, 0.0, 0.0, 0.0) == 0.0
  {
    InterpSumAtCorner(c, 8);
  }

  /** The eight corner gradients of the cell of p, numbered 4di + 2dj + dk. */
  function Cell(d: PerlinData, p: Vec3): (c: seq<Vec3>)
    requires Wf(d)
    ensures |c| == 8
  {
    var (i, j, k) := (p.x.Floor, p.y.Floor, p.z.Floor);
    [Corner(d, i, j, k, 0, 0, 0), Corner(d, i, j, k, 0, 0, 1), Corner(d, i, j, k, 0, 1, 0), Corner(d, i, j, k, 0, 1, 1),
     Corner(d, i, j, k, 1, 0, 0), Corner(d, i, j, k, 1, 0, 1), Corner(d, i, j, k, 1, 1, 0), Corner(d, i, j, k, 1, 1, 1)]
  }

  /** The value `PerlinData::noise` computes at p. */
  function NoiseValue(d: PerlinData, p: Vec3): real
    requires Wf(d)
  {
    Interp(Cell(d, p), p.x - p.x.Floor as real, p.y - p.y.Floor as real, p.z - p.z.Floor as real)
  }

  /** Perlin noise vanishes at every lattice point, whatever the tables hold. */
  lemma NoiseZeroAtLattice(d: PerlinData, i: int, j: int, k: int)
    requires Wf(d)
    ensures NoiseValue(d, Vec3(i as real, j as real, k as real)) == 0.0
  {
    var p := Vec3(i as real, j as real, k as real);
    assert p.x.Floor == i && p.y.Floor == j && p.z.Floor == k;
    InterpAtCorner(Cell(d, p));
  }

  /**
   * `PerlinData::perlin_interp`: the triple loop over i, j, k accumulating the weighted
   * corner contributions.
   */
  method PerlinInterp(c: array3<Vec3>, u: real, v: real, w: real) returns (accum: real)
    requires c.Length0 == 2 && c.Length1 == 2 && c.Length2 == 2
    ensures accum == Interp(Flat(c), u, v, w)
  {
    ghost var cs := Flat(c);
    accum := 0.0;
    var i := 0;
    while i < 2
      invariant 0 <= i <= 2 && accum == InterpSum(cs, u, v, w, 4 * i)
    {
      var j := 0;
      while j < 2
        invariant 0 <= j <= 2 && accum == InterpSum(cs, u, v, w, 4 * i + 2 * j)
      {
        var k := 0;
        while k < 2
          invariant 0 <= k <= 2 && accum == InterpSum(cs, u, v, w, 4 * i + 2 * j + k)
        {
          InterpStep(cs, u, v, w, i, j, k);
          accum := accum + InterpTerm(c[i, j, k], u, v, w, i, j, k);
          k := k + 1;
        }
        j := j + 1;
      }
      i := i + 1;
    }
  }

  /** The 2x2x2 corner array read in the order 4i + 2j + k. */
  function Flat(c: array3<Vec3>): (s: seq<Vec3>)
    requires c.Length0 == 2 && c.Length1 == 2 && c.Length2 == 2
    reads c
    ensures |s| == 8
    ensures forall i: nat, j: nat, k: nat :: i < 2 && j < 2 && k < 2 ==> s[4 * i + 2 * j + k] == c[i, j, k]
  {
    [c[0, 0, 0], c[0, 0, 1], c[0, 1, 0], c[0, 1, 1], c[1, 0, 0], c[1, 0, 1], c[1, 1, 0], c[1, 1, 1]]
  }

  /** The corners of the cell numbered below t (in the order 4di + 2dj + dk) hold their gradients. */
  ghost predicate FilledBelow(c: array3<Vec3>, d: PerlinData, i: int, j: int, k: int, t: nat)
    requires Wf(d) && c.Length0 == 2 && c.Length1 == 2 && c.Length2 == 2
    reads c
  {
    forall a: nat, b: nat, e: nat :: a < 2 && b < 2 && e < 2 && 4 * a + 2 * b + e < t ==>
      c[a, b, e] == Corner(d, i, j, k, a, b, e)
  }

  /** The body of the fill loop of `noise`: corner (di, dj, dk) gets its hashed gradient, nothing else changes. */
  method StoreCorner(c: array3<Vec3>, d: PerlinData, i: int, j: int, k: int, di: nat, dj: nat, dk: nat)
    requires Wf(d) && c.Length0 == 2 && c.Length1 == 2 && c.Length2 == 2 && di < 2 && dj < 2 && dk < 2
    requires FilledBelow(c, d, i, j, k, 4 * di + 2 * dj + dk)
    modifies c
    ensures FilledBelow(c, d, i, j, k, 4 * di + 2 * dj + dk + 1)
  {
    var a, b, e := d.permX[Wrap(i + di)], d.permY[Wrap(j + dj)], d.permZ[Wrap(k + dk)];
    HashInBounds(a, b, e);
    c[di, dj, dk] := d.ranvec[Hash(a, b, e)];
  }

  /** The triple fill loop of `noise`: every corner of the cell with lattice corner (i, j, k) gets its gradient. */
  method FillCell(c: array3<Vec3>, d: PerlinData, i: int, j: int, k: int)
    requires Wf(d) && c.Length0 == 2 && c.Length1 == 2 && c.Length2 == 2
    modifies c
    ensures FilledBelow(c, d, i, j, k, 8)
  {
    var di := 0;
    while di < 2
      invariant 0 <= di <= 2 && FilledBelow(c, d, i, j, k, 4 * di)
    {
      var dj := 0;
      while dj < 2
        invariant 0 <= dj <= 2 && FilledBelow(c, d, i, j, k, 4 * di + 2 * dj)
      {
        var dk := 0;
        while dk < 2
          invariant 0 <= dk <= 2 && FilledBelow(c, d, i, j, k, 4 * di + 2 * dj + dk)
        {
          StoreCorner(c, d, i, j, k, di, dj, dk);
          dk := dk + 1;
        }
        dj := dj + 1;
      }
      di := di + 1;
    }
  }

  /** A filled corner array of the cell of p, read in loop order, is that cell's gradients. */
  lemma FilledIsCell(c: array3<Vec3>, d: PerlinData, p: Vec3)
    requires Wf(d) && c.Length0 == 2 && c.Length1 == 2 && c.Length2 == 2
    requires FilledBelow(c, d, p.x.Floor, p.y.Floor, p.z.Floor, 8)
    ensures Flat(c) == Cell(d, p)
  {
    var i, j, k := p.x.Floor, p.y.Floor, p.z.Floor;
    assert c[0, 0, 0] == Corner(d, i, j, k, 0, 0, 0) && c[0, 0, 1] == Corner(d, i, j, k, 0, 0, 1);
    assert c[0, 1, 0] == Corner(d, i, j, k, 0, 1, 0) && c[0, 1, 1] == Corner(d, i, j, k, 0, 1, 1);
    assert c[1, 0, 0] == Corner(d, i, j, k, 1, 0, 0) && c[1, 0, 1] == Corner(d, i, j, k, 1, 0, 1);
    assert c[1, 1, 0] == Corner(d, i, j, k, 1, 1, 0) && c[1, 1, 1] == Corner(d, i, j, k, 1, 1, 1);
  }

  /**
   * `PerlinData::noise`: the fractional offsets and the floor of p, the eight hashed corner
   * gradients filled in a triple loop, then the interpolation.
   */
  method NoiseAt(d: PerlinData, p: Vec3) returns (r: real)
    requires Wf(d)
    ensures r == NoiseValue(d, p)
  {
    var u := p.x - p.x.Floor as real;
    var v := p.y - p.y.Floor as real;
    var w := p.z - p.z.Floor as real;
    var i, j, k := p.x.Floor, p.y.Floor, p.z.Floor;
    var c := new Vec3[2, 2, 2]((_, _, _) => Origin);
    FillCell(c, d, i, j, k);
    FilledIsCell(c, d, p);
    r := PerlinInterp(c, u, v, w);
  }

  /** The octave weight 1, 1/2, 1/4, ... after n halvings. */
  function Weight(n: nat): real {
    if n == 0 then 1.0 else Weight(n - 1) * 0.5
  }

  /** The octave point p, 2p, 4p, ... after n doublings. */
  function Octave(p: Vec3, n: nat): Vec3 {
    if n == 0 then p else Scale(2.0, Octave(p, n - 1))
  }

  /** The noise values `turb` samples: octave k is the noise at 2^k p. */
  function OctaveNoise(d: PerlinData, p: Vec3, n: nat): (s: seq<real>)
    requires Wf(d)
    ensures |s| == n
  {
    if n == 0 then [] else OctaveNoise(d, p, n - 1) + [NoiseValue(d, Octave(p, n - 1))]
  }

  /** Value x as octave n contributes it: halved n times. */
  function Halved(x: real, n: nat): real {
    if n == 0 then x else Halved(x, n - 1) * 0.5
  }

  /** Halving n times is multiplying by the octave weight. */
  lemma {:induction false} HalvedIsWeighted(x: real, n: nat)
    ensures Halved(x, n) == Weight(n) * x
  {
    if n > 0 {
      HalvedIsWeighted(x, n - 1);
      assert Halved(x, n) == (Weight(n - 1) * x) * 0.5;
    }
  }

  /** The accumulator of `turb` over the sampled values: octave k enters with weight 2^-k. */
  function WeightedSum(s: seq<real>): real {
    if |s| == 0 then 0.0 else WeightedSum(s[..|s| - 1]) + Halved(s[|s| - 1], |s| - 1)
  }

  lemma WeightedSumSnoc(s: seq<real>, x: real)
    ensures WeightedSum(s + [x]) == WeightedSum(s) + Halved(x, |s|)
  {
    assert (s + [x])[..|s|] == s;
  }

  /** The loop step of `turb`: adding weight * x to the sum so far gives the sum with x appended. */
  lemma AccumulateOctave(s: seq<real>, accum: real, weight: real, x: real)
    requires accum == WeightedSum(s) && weight == Weight(|s|)
    ensures accum + weight * x == WeightedSum(s + [x])
  {
    HalvedIsWeighted(x, |s|);
    WeightedSumSnoc(s, x);
  }

  /** The value of `turb`: the magnitude of the weighted octave sum. */
  function TurbValue(d: PerlinData, p: Vec3, depth: nat): real
    requires Wf(d)
  {
    Abs(WeightedSum(OctaveNoise(d, p, depth)))
  }

  /** Every octave has half the weight of the previous one and all weights are positive. */
  lemma {:induction false} WeightHalves(n: nat)
    ensures Weight(n) > 0.0 && Weight(n + 1) * 2.0 == Weight(n)
  {
    if n > 0 {
      WeightHalves(n - 1);
    }
  }

  /** The state of `turb` after n octaves: the point, the weight, the values sampled and their sum. */
  ghost predicate TurbState(d: PerlinData, p: Vec3, n: nat, tempP: Vec3, weight: real, samples: seq<real>, accum: real)
    requires Wf(d)
  {
    tempP == Octave(p, n) && weight == Weight(n) && samples == OctaveNoise(d, p, n) && accum == WeightedSum(samples)
  }

  /** One iteration of the loop of `turb`: sample, accumulate, halve the weight, double the point. */
  method TurbOctave(d: PerlinData, p: Vec3, n: nat, tempP: Vec3, weight: real, ghost samples: seq<real>, accum: real)
    returns (tempP': Vec3, weight': real, ghost samples': seq<real>, accum': real)
    requires Wf(d) && TurbState(d, p, n, tempP, weight, samples, accum)
    ensures TurbState(d, p, n + 1, tempP', weight', samples', accum')
  {
    var noise := NoiseAt(d, tempP);
    AccumulateOctave(samples, accum, weight, noise);
    assert samples + [noise] == OctaveNoise(d, p, n + 1);
    accum' := accum + weight * noise;
    samples' := samples + [noise];
    weight' := weight * 0.5;
    tempP' := Scale(2.0, tempP);
  }

  /**
   * `PerlinData::turb`: depth octaves, each adding weight * noise(temp_p), halving the weight and
   * doubling the point; the result is the absolute value of the sum.
   */
  method Turb(d: PerlinData, p: Vec3, depth: nat) returns (r: real)
    requires Wf(d)
    ensures r == TurbValue(d, p, depth)
    ensures r >= 0.0
    ensures depth == 0 ==> r == 0.0
  {
    var accum := 0.0;
    var tempP := p;
    var weight := 1.0;
    ghost var samples: seq<real> := [];
    var n := 0;
    while n < depth
      invariant 0 <= n <= depth
      invariant TurbState(d, p, n, tempP, weight, samples, accum)
    {
      tempP, weight, samples, accum := TurbOctave(d, p, n, tempP, weight, samples, accum);
      n := n + 1;
    }
    r := Abs(accum);
  }

  /** `Noise`: plain Perlin noise, or turbulence with a fixed octave count. */
  datatype Noise = Perlin(data: PerlinData) | Turbulent(data: PerlinData, depth: nat)

  predicate NoiseOk(n: Noise) { Wf(n.data) }

  /** The value `Noise::sample` returns. */
  function SampleValue(n: Noise, p: Vec3): real
    requires NoiseOk(n)
  {
    match n
    case Perlin(d) => NoiseValue(d, p)
    case Turbulent(d, depth) => TurbValue(d, p, depth)
  }

  /** Turbulent samples are never negative; plain Perlin samples have no sign constraint. */
  lemma TurbulentSampleNonNegative(n: Noise, p: Vec3)
    requires NoiseOk(n) && n.Turbulent?
    ensures SampleValue(n, p) >= 0.0
  {
  }

  /** `Noise::sample`: Perlin to `noise`, Turbulent to `turb` with its stored depth. */
  method Sample(n: Noise, p: Vec3) returns (r: real)
    requires NoiseOk(n)
    ensures r == SampleValue(n, p)
    ensures n.Perlin? ==> r == NoiseValue(n.data, p)
    ensures n.Turbulent? ==> r == TurbValue(n.data, p, n.depth) && r >= 0.0
  {
    match n
    case Perlin(d) => r := NoiseAt(d, p);
    case Turbulent(d, depth) => r := Turb(d, p, depth);
  }
}
